/**
 * The values the ledger stores, and the pure computations over them: the budget
 * and spending totals, per-payer spending, the delete filter and the defaulting
 * policy of a newly entered expense. All money is counted in centavos.
 */
module Expenses {
  import opened Text

  type Cents = int

  /** One logged spend: `{id, date, category, desc, paidBy, amount}`. An empty
      string stands for a field that is missing or empty. */
  datatype Expense = Expense(id: string, date: string, category: string, desc: string,
                             paidBy: string, amount: Cents)

  /** The persisted root record. */
  datatype Trip = Trip(budgetPerPerson: Cents, people: seq<string>, expenses: seq<Expense>)

  /** `defaultState()`: a budget of 1000 pesos, one participant "Me", no expenses. */
  function DefaultTrip(): Trip {
    Trip(100000, ["Me"], [])
  }

  /** `totalBudget()`: the per-person budget times the number of participants. */
  function TotalBudget(t: Trip): Cents {
    t.budgetPerPerson * |t.people|
  }

  /** `totalSpent()`: the amounts added up from the first expense to the last. */
  function TotalSpent(es: seq<Expense>): (total: Cents)
    ensures (forall i :: 0 <= i < |es| ==> es[i].amount >= 0) ==> total >= 0
  {
    if es == [] then 0 else TotalSpent(es[..|es| - 1]) + es[|es| - 1].amount
  }

  /** The name an expense is accounted under in the per-person totals. */
  function PayerKey(e: Expense): (k: string)
    ensures k != ""
    ensures e.paidBy != "" ==> k == e.paidBy
    ensures e.paidBy == "" ==> k == "Unknown"
  {
    if e.paidBy == "" then "Unknown" else e.paidBy
  }

  /** What the expenses accounted under `name` add up to. */
  function SpentBy(es: seq<Expense>, name: string): Cents {
    if es == [] then 0
    else SpentBy(es[..|es| - 1], name) + (if PayerKey(es[|es| - 1]) == name then es[|es| - 1].amount else 0)
  }

  /** The keys `perPersonTotals` creates: every participant and every payer key. */
  function TotalsKeys(people: seq<string>, es: seq<Expense>): set<string> {
    (set p | p in people) + (set i | 0 <= i < |es| :: PayerKey(es[i]))
  }

  /** `m` is what `perPersonTotals` yields for these participants and expenses. */
  predicate IsTotalsOf(m: map<string, Cents>, people: seq<string>, es: seq<Expense>) {
    m.Keys == TotalsKeys(people, es) && forall k :: k in m ==> m[k] == SpentBy(es, k)
  }

  lemma TotalsKeysSnoc(people: seq<string>, es: seq<Expense>, e: Expense)
    ensures TotalsKeys(people, es + [e]) == TotalsKeys(people, es) + {PayerKey(e)}
  {
    var es' := es + [e];
    assert forall i :: 0 <= i < |es| ==> es'[i] == es[i];
    assert es'[|es|] == e;
  }

  /** The totals before any expense: every participant at zero. */
  lemma TotalsStart(people: seq<string>)
    ensures IsTotalsOf(map p | p in people :: 0, people, [])
  {
  }

  /** One step of the participant loop: the next participant, at zero. */
  lemma TotalsAddParticipant(m: map<string, Cents>, people: seq<string>, i: nat)
    requires i < |people| && IsTotalsOf(m, people[..i], [])
    ensures IsTotalsOf(m[people[i] := 0], people[..i + 1], [])
  {
    var before, after := people[..i], people[..i + 1];
    assert after == before + [people[i]];
    assert (set q | q in after) == (set q | q in before) + {people[i]};
  }

  /** `map[name] += e.amount` after creating a missing key at zero, for the
      expense's payer key. */
  function Credit(m: map<string, Cents>, e: Expense): (m': map<string, Cents>)
    ensures m'.Keys == m.Keys + {PayerKey(e)}
    ensures forall k :: k in m && k != PayerKey(e) ==> m'[k] == m[k]
  {
    var k := PayerKey(e);
    m[k := (if k in m then m[k] else 0) + e.amount]
  }

  /** One step of the accumulation loop: the expense's amount is added under its
      payer key, which is created at zero when missing. */
  lemma TotalsStepAt(m: map<string, Cents>, people: seq<string>, all: seq<Expense>, j: nat)
    requires j < |all| && IsTotalsOf(m, people, all[..j])
    ensures var k := PayerKey(all[j]);
            var m' := if k in m then m else m[k := 0];
            IsTotalsOf(m'[k := m'[k] + all[j].amount], people, all[..j + 1])
  {
    var k := PayerKey(all[j]);
    var m' := if k in m then m else m[k := 0];
    assert m'[k := m'[k] + all[j].amount] == Credit(m, all[j]);
    assert all[..j + 1] == all[..j] + [all[j]];
    TotalsStep(m, people, all[..j], all[j]);
  }

  /** Crediting the last expense keeps the totals correct. */
  lemma TotalsStepLast(m: map<string, Cents>, people: seq<string>, es: seq<Expense>)
    requires es != [] && IsTotalsOf(m, people, es[..|es| - 1])
    ensures IsTotalsOf(Credit(m, es[|es| - 1]), people, es)
  {
    TotalsStep(m, people, es[..|es| - 1], es[|es| - 1]);
    assert es[..|es| - 1] + [es[|es| - 1]] == es;
  }

  /** Crediting one more expense keeps the totals correct. */
  lemma TotalsStep(m: map<string, Cents>, people: seq<string>, es: seq<Expense>, e: Expense)
    requires IsTotalsOf(m, people, es)
    ensures IsTotalsOf(Credit(m, e), people, es + [e])
  {
    var name := PayerKey(e);
    var m' := Credit(m, e);
    TotalsKeysSnoc(people, es, e);
    assert (es + [e])[..|es|] == es;
    forall k | k in m' ensures m'[k] == SpentBy(es + [e], k) {
      if k == name && name !in m {
        forall i | 0 <= i < |es| ensures PayerKey(es[i]) != name {
          assert PayerKey(es[i]) in TotalsKeys(people, es);
        }
        SpentByNonPayer(es, name);
      }
    }
  }

  lemma {:induction false} TotalSpentAppend(a: seq<Expense>, b: seq<Expense>)
    ensures TotalSpent(a + b) == TotalSpent(a) + TotalSpent(b)
    decreases |b|
  {
    if b == [] {
      assert a + b == a;
    } else {
      var b' := b[..|b| - 1];
      assert (a + b)[..|a + b| - 1] == a + b';
      TotalSpentAppend(a, b');
    }
  }

  /** A name nobody paid under has spent nothing. */
  lemma {:induction false} SpentByNonPayer(es: seq<Expense>, name: string)
    requires forall i :: 0 <= i < |es| ==> PayerKey(es[i]) != name
    ensures SpentBy(es, name) == 0
  {
    if es != [] {
      SpentByNonPayer(es[..|es| - 1], name);
    }
  }

  predicate Distinct(ks: seq<string>) {
    forall i, j :: 0 <= i < j < |ks| ==> ks[i] != ks[j]
  }

  /** Σ SpentBy(es, k) over the names `ks`. */
  function SumSpent(es: seq<Expense>, ks: seq<string>): Cents {
    if ks == [] then 0 else SpentBy(es, ks[0]) + SumSpent(es, ks[1..])
  }

  lemma {:induction false} SumSpentSnoc(es: seq<Expense>, e: Expense, ks: seq<string>)
    requires Distinct(ks)
    ensures SumSpent(es + [e], ks) == SumSpent(es, ks) + (if PayerKey(e) in ks then e.amount else 0)
  {
    if ks != [] {
      assert (es + [e])[..|es + [e]| - 1] == es;
      assert Distinct(ks[1..]) by {
        forall i, j | 0 <= i < j < |ks[1..]| ensures ks[1..][i] != ks[1..][j] {
          assert ks[1..][i] == ks[i + 1] && ks[1..][j] == ks[j + 1];
        }
      }
      SumSpentSnoc(es, e, ks[1..]);
      assert PayerKey(e) in ks <==> PayerKey(e) == ks[0] || PayerKey(e) in ks[1..] by {
        assert ks == [ks[0]] + ks[1..];
      }
      assert PayerKey(e) == ks[0] ==> PayerKey(e) !in ks[1..] by {
        forall j | 0 <= j < |ks[1..]| ensures ks[1..][j] != ks[0] { assert ks[1..][j] == ks[j + 1]; }
      }
    }
  }

  /** Every expense is counted exactly once: summing per-payer spending over any
      list of distinct names that covers all payers gives the total spent. */
  lemma {:induction false} SumSpentIsTotal(es: seq<Expense>, ks: seq<string>)
    requires Distinct(ks)
    requires forall i :: 0 <= i < |es| ==> PayerKey(es[i]) in ks
    ensures SumSpent(es, ks) == TotalSpent(es)
    decreases |es|
  {
    if es == [] {
      assert SumSpent([], ks) == 0 by { SumSpentOfNothing(ks); }
    } else {
      var es' := es[..|es| - 1];
      var e := es[|es| - 1];
      assert es == es' + [e];
      assert forall i :: 0 <= i < |es'| ==> es'[i] == es[i];
      SumSpentIsTotal(es', ks);
      SumSpentSnoc(es', e, ks);
    }
  }

  lemma {:induction false} SumSpentOfNothing(ks: seq<string>)
    ensures SumSpent([], ks) == 0
  {
    if ks != [] {
      SumSpentOfNothing(ks[1..]);
    }
  }

  /** Σ m[k] over the names `ks`. */
  function SumValues(m: map<string, Cents>, ks: seq<string>): Cents
    requires forall i :: 0 <= i < |ks| ==> ks[i] in m
  {
    if ks == [] then 0 else m[ks[0]] + SumValues(m, ks[1..])
  }

  /** The per-person totals add up to the total spent, whatever order their
      names are listed in. */
  lemma PerPersonTotalsSum(m: map<string, Cents>, people: seq<string>, es: seq<Expense>, ks: seq<string>)
    requires IsTotalsOf(m, people, es)
    requires Distinct(ks) && (set k | k in ks) == m.Keys
    ensures SumValues(m, ks) == TotalSpent(es)
  {
    forall i | 0 <= i < |es| ensures PayerKey(es[i]) in ks {
      assert PayerKey(es[i]) in TotalsKeys(people, es);
    }
    SumValuesIsSumSpent(m, es, ks);
    SumSpentIsTotal(es, ks);
  }

  lemma {:induction false} SumValuesIsSumSpent(m: map<string, Cents>, es: seq<Expense>, ks: seq<string>)
    requires forall i :: 0 <= i < |ks| ==> ks[i] in m
    requires forall k :: k in m ==> m[k] == SpentBy(es, k)
    ensures SumValues(m, ks) == SumSpent(es, ks)
  {
    if ks != [] {
      SumValuesIsSumSpent(m, es, ks[1..]);
    }
  }

  /** `expenses.filter(x => x.id !== id)`. */
  function RemoveId(es: seq<Expense>, id: string): (kept: seq<Expense>)
    ensures |kept| <= |es|
    ensures forall i :: 0 <= i < |kept| ==> kept[i].id != id
  {
    if es == [] then []
    else (if es[0].id == id then [] else [es[0]]) + RemoveId(es[1..], id)
  }

  /** The expenses carrying `id`, in order. */
  function WithId(es: seq<Expense>, id: string): seq<Expense> {
    if es == [] then []
    else (if es[0].id == id then [es[0]] else []) + WithId(es[1..], id)
  }

  /** Deleting works expense by expense: it keeps the survivors of each part in
      their original order. */
  lemma {:induction false} RemoveIdAppend(a: seq<Expense>, b: seq<Expense>, id: string)
    ensures RemoveId(a + b, id) == RemoveId(a, id) + RemoveId(b, id)
  {
    if a == [] {
      assert a + b == b;
    } else {
      assert (a + b)[0] == a[0] && (a + b)[1..] == a[1..] + b;
      RemoveIdAppend(a[1..], b, id);
      var h := if a[0].id == id then [] else [a[0]];
      assert h + (RemoveId(a[1..], id) + RemoveId(b, id)) == (h + RemoveId(a[1..], id)) + RemoveId(b, id);
    }
  }

  /** Exactly the expenses with another id survive. */
  lemma {:induction false} RemoveIdMembers(es: seq<Expense>, id: string)
    ensures forall e :: e in RemoveId(es, id) <==> e in es && e.id != id
  {
    if es != [] {
      RemoveIdMembers(es[1..], id);
      assert es == [es[0]] + es[1..];
    }
  }

  /** Deleting an id no expense carries changes nothing. */
  lemma {:induction false} RemoveAbsentId(es: seq<Expense>, id: string)
    requires forall i :: 0 <= i < |es| ==> es[i].id != id
    ensures RemoveId(es, id) == es
  {
    if es != [] {
      assert forall i :: 0 <= i < |es[1..]| ==> es[1..][i] == es[i + 1];
      RemoveAbsentId(es[1..], id);
      assert es == [es[0]] + es[1..];
    }
  }

  /** Deleting twice is deleting once. */
  lemma RemoveIdIdempotent(es: seq<Expense>, id: string)
    ensures RemoveId(RemoveId(es, id), id) == RemoveId(es, id)
  {
    var r := RemoveId(es, id);
    RemoveIdMembers(es, id);
    assert forall i :: 0 <= i < |r| ==> r[i] in r;
    RemoveAbsentId(r, id);
  }

  /** The deleted amount and the remaining amount make up the old total. */
  lemma {:induction false} RemoveIdSpent(es: seq<Expense>, id: string)
    ensures TotalSpent(es) == TotalSpent(RemoveId(es, id)) + TotalSpent(WithId(es, id))
  {
    if es != [] {
      RemoveIdSpent(es[1..], id);
      var h := if es[0].id == id then [] else [es[0]];
      var w := if es[0].id == id then [es[0]] else [];
      TotalSpentAppend(h, RemoveId(es[1..], id));
      TotalSpentAppend(w, WithId(es[1..], id));
      TotalSpentAppend([es[0]], es[1..]);
      assert es == [es[0]] + es[1..];
      assert TotalSpent([es[0]]) == es[0].amount by { assert [es[0]][..0] == []; }
    }
  }

  /** What the add-expense form holds; `amount` is the number typed in. */
  datatype ExpenseForm = ExpenseForm(date: string, amount: real, category: string, desc: string,
                                     paidBy: string)

  /** `Math.round(amount * 100)`: the nearest whole number of centavos, halves rounded up. */
  function RoundToCents(amount: real): (c: Cents)
    ensures amount * 100.0 - 0.5 < c as real <= amount * 100.0 + 0.5
  {
    (amount * 100.0 + 0.5).Floor
  }

  /** An amount already in whole centavos is stored as it is. */
  lemma RoundWholeCents(c: Cents)
    ensures RoundToCents(c as real / 100.0) == c
  {
    var x := c as real / 100.0;
    assert x * 100.0 == c as real;
  }

  /** The payer used when the form names none: the first participant, else "Me". */
  function DefaultPayer(people: seq<string>): (p: string)
    ensures p != ""
    ensures |people| > 0 && people[0] != "" ==> p == people[0]
    ensures (|people| == 0 || people[0] == "") ==> p == "Me"
  {
    if |people| > 0 && people[0] != "" then people[0] else "Me"
  }

  /** The expense the add handler builds from the form: a missing date becomes
      `today`, a missing category "Other", a missing payer the default payer;
      the description is trimmed and the amount rounded to centavos. */
  function MakeExpense(form: ExpenseForm, id: string, today: string, people: seq<string>): (e: Expense)
    ensures e.id == id
    ensures form.date != "" ==> e.date == form.date
    ensures form.date == "" ==> e.date == today
    ensures e.category != "" && (form.category != "" ==> e.category == form.category)
    ensures form.category == "" ==> e.category == "Other"
    ensures e.desc == Trim(form.desc) && IsTrimmed(e.desc)
    ensures e.paidBy != "" && (form.paidBy != "" ==> e.paidBy == form.paidBy)
    ensures form.paidBy == "" ==> e.paidBy == DefaultPayer(people)
    ensures form.amount * 100.0 - 0.5 < e.amount as real <= form.amount * 100.0 + 0.5
    ensures form.amount > 0.0 ==> e.amount >= 0
  {
    Expense(id,
            if form.date != "" then form.date else today,
            if form.category != "" then form.category else "Other",
            Trim(form.desc),
            if form.paidBy != "" then form.paidBy else DefaultPayer(people),
            RoundToCents(form.amount))
  }

  /** The default trip has a budget of 1000 pesos and nothing spent. */
  lemma DefaultTotals()
    ensures TotalBudget(DefaultTrip()) == 100000
    ensures TotalSpent(DefaultTrip().expenses) == 0
    ensures IsTotalsOf(map["Me" := 0], DefaultTrip().people, DefaultTrip().expenses)
  {
    assert TotalsKeys(["Me"], []) == {"Me"} by {
      assert (set p | p in ["Me"]) == {"Me"};
    }
  }

  /** An amount of 19.995 is stored as 20.00; 0.004 passes the positive check yet is
      stored as 0.00. */
  lemma RoundingSamples()
    ensures RoundToCents(19.995) == 2000
    ensures RoundToCents(0.004) == 0
  {
  }
}
