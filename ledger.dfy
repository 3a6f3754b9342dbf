/**
 * The trip ledger: the one state record the app keeps, and the steps its event
 * handlers take on it. Each handler is followed by `save()` and a re-render,
 * which are not modelled; `State()` is what `save()` would write.
 */
module TripLedger {
  import opened Wrappers
  import opened People
  import opened Expenses
  import opened Snapshots

  /** What the import handler reports. */
  datatype ImportOutcome =
    | NoFile          // no file chosen: nothing happens
    | InvalidFile     // "Invalid JSON file."
    | CouldNotImport  // "Could not import file."
    | Imported        // "Imported!"

  class Ledger {
    var budgetPerPerson: Cents
    var people: seq<string>
    var expenses: seq<Expense>

    function State(): Trip
      reads this
    {
      Trip(budgetPerPerson, people, expenses)
    }

    /** `let state = load()`. */
    constructor (stored: Option<Parsed>)
      ensures State() == LoadTrip(stored)
    {
      var t := LoadTrip(stored);
      budgetPerPerson, people, expenses := t.budgetPerPerson, t.people, t.expenses;
    }

    /** The setup handler: a new budget and a normalized participant list; the
        expenses, and the payers they name, stay as they were. */
    method SaveSetup(budget: Cents, peopleInput: string)
      modifies this
      ensures budgetPerPerson == budget
      ensures people == NormalizePeople(peopleInput) && |people| >= 1
      ensures expenses == old(expenses)
    {
      budgetPerPerson := budget;
      people := NormalizePeople(peopleInput);
    }

    /** The reset handler, once confirmed: back to the default trip. */
    method ResetAll()
      modifies this
      ensures State() == DefaultTrip()
    {
      var t := DefaultTrip();
      budgetPerPerson, people, expenses := t.budgetPerPerson, t.people, t.expenses;
    }

    /** The add-expense handler. An amount that is not positive changes nothing;
        otherwise one expense, built by `MakeExpense`, goes at the end. `id` and
        `today` stand for `crypto.randomUUID()` and `todayISO()`. */
    method AddExpense(form: ExpenseForm, id: string, today: string) returns (added: bool)
      modifies this
      ensures added <==> form.amount > 0.0
      ensures !added ==> State() == old(State())
      ensures added ==> expenses == old(expenses) + [MakeExpense(form, id, today, old(people))]
      ensures budgetPerPerson == old(budgetPerPerson) && people == old(people)
    {
      if !(form.amount > 0.0) {
        return false;
      }
      var e := MakeExpense(form, id, today, people);
      expenses := expenses + [e];
      added := true;
    }

    /** The delete handler: every expense with this id goes, the rest keep their order. */
    method DeleteExpense(id: string)
      modifies this
      ensures expenses == RemoveId(old(expenses), id)
      ensures budgetPerPerson == old(budgetPerPerson) && people == old(people)
    {
      expenses := RemoveId(expenses, id);
    }

    /** The import handler: the whole state is replaced by the file's contents when
        they pass the shape check, and left as it was otherwise. */
    method Import(file: Option<Parsed>) returns (outcome: ImportOutcome)
      modifies this
      ensures file.None? ==> outcome == NoFile
      ensures file == Some(Unparsable) ==> outcome == CouldNotImport
      ensures file.Some? && !file.value.Unparsable? && ShapeCheck(file.value).None? ==> outcome == InvalidFile
      ensures outcome == Imported <==> file.Some? && ShapeCheck(file.value).Some?
      ensures outcome == Imported ==> State() == ShapeCheck(file.value).value
      ensures outcome != Imported ==> State() == old(State())
    {
      if file.None? {
        return NoFile;
      }
      if file.value.Unparsable? {
        return CouldNotImport;
      }
      match ShapeCheck(file.value)
      case None =>
        outcome := InvalidFile;
      case Some(t) =>
        budgetPerPerson, people, expenses := t.budgetPerPerson, t.people, t.expenses;
        outcome := Imported;
    }

    /** `perPersonTotals()`: a key for every participant and every payer (an empty
        payer counts as "Unknown"), each holding what was paid under that name. */
    method PerPersonTotals() returns (m: map<string, Cents>)
      ensures IsTotalsOf(m, people, expenses)
    {
      var ps, es := people, expenses;
      m := map[];
      for i := 0 to |ps|
        invariant IsTotalsOf(m, ps[..i], [])
      {
        TotalsAddParticipant(m, ps, i);
        m := m[ps[i] := 0];
      }
      assert ps[..|ps|] == ps;
      assert es[..0] == [];
      for j := 0 to |es|
        invariant IsTotalsOf(m, ps, es[..j])
      {
        var e := es[j];
        var name := PayerKey(e);
        TotalsStepAt(m, ps, es, j);
        if name !in m {
          m := m[name := 0];
        }
        m := m[name := m[name] + e.amount];
      }
      assert es[..|es|] == es;
    }
  }

  /** The default trip and the setup scenarios, checked against the contracts
      above alone. */
  method SetupScenarios()
  {
    var ledger := new Ledger(None);
    DefaultTotals();
    assert TotalBudget(ledger.State()) == 100000 && TotalSpent(ledger.expenses) == 0;

    ledger.SaveSetup(50000, "Alice, Bob, Alice");
    NormalizeKeepsDuplicates();
    assert ledger.people == ["Alice", "Bob", "Alice"];
    assert TotalBudget(ledger.State()) == 150000;

    ledger.SaveSetup(50000, "");
    NormalizeEmpty();
    assert ledger.people == ["Me"];
  }

  /** Adding, totalling, rejecting and deleting expenses. */
  method ExpenseScenarios()
  {
    var ledger := new Ledger(None);
    var form := ExpenseForm("2024-01-01", 250.0, "Food", "", "Alice");
    var added := ledger.AddExpense(form, "e1", "2024-01-02");
    assert added;
    ghost var e := MakeExpense(form, "e1", "2024-01-02", ["Me"]);
    assert ledger.expenses == [e] && e.paidBy == "Alice" && e.amount == 25000;
    var totals := ledger.PerPersonTotals();
    assert [e][..0] == [];
    assert PayerKey(ledger.expenses[0]) == "Alice";
    assert "Alice" in TotalsKeys(ledger.people, ledger.expenses);
    assert SpentBy([e], "Alice") == SpentBy([], "Alice") + 25000;
    assert totals["Alice"] == 25000;

    var rejected := ledger.AddExpense(ExpenseForm("", -5.0, "", "", ""), "e2", "2024-01-02");
    assert !rejected && |ledger.expenses| == 1;

    ledger.DeleteExpense("e1");
    assert ledger.expenses == [];
    ledger.DeleteExpense("e1");
    assert ledger.expenses == [];
  }

  /** A file that is not a trip record is refused and the state kept. */
  method ImportScenario()
  {
    var ledger := new Ledger(None);
    var before := ledger.State();
    var outcome := ledger.Import(Some(Value(0, None, None)));
    assert outcome == InvalidFile && ledger.State() == before;
  }
}
