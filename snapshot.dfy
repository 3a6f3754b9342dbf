/**
 * The shape check shared by `load` and the import handler: a candidate state is
 * accepted when it is a truthy value whose `people` and `expenses` are arrays;
 * nothing inside the arrays is checked. The JSON text itself is not modelled:
 * `Parsed` is what `JSON.parse` produced, or that it threw.
 */
module Snapshots {
  import opened Wrappers
  import opened Expenses

  datatype Parsed =
    | Unparsable   // JSON.parse threw
    | Falsy        // null, false, 0 or ""
    /** Any other value; a field is `None` when it is absent or not an array,
        and a missing budget reads as 0. */
    | Value(budgetPerPerson: Cents, people: Option<seq<string>>, expenses: Option<seq<Expense>>)

  /** `!s || !Array.isArray(s.people) || !Array.isArray(s.expenses)` negated. */
  function ShapeCheck(p: Parsed): (r: Option<Trip>)
    ensures r.Some? <==> p.Value? && p.people.Some? && p.expenses.Some?
    ensures r.Some? ==> r.value == Trip(p.budgetPerPerson, p.people.value, p.expenses.value)
  {
    match p
    case Value(b, Some(people), Some(expenses)) => Some(Trip(b, people, expenses))
    case _ => None
  }

  /** `load()`: `stored` is `None` when nothing (or an empty string) is stored.
      Anything missing, unparsable or of the wrong shape gives the default trip. */
  function LoadTrip(stored: Option<Parsed>): (t: Trip)
    ensures stored.None? ==> t == DefaultTrip()
    ensures stored.Some? && ShapeCheck(stored.value).None? ==> t == DefaultTrip()
    ensures stored.Some? && ShapeCheck(stored.value).Some? ==> t == ShapeCheck(stored.value).value
  {
    match stored
    case None => DefaultTrip()
    case Some(p) =>
      match ShapeCheck(p)
      case None => DefaultTrip()
      case Some(t) => t
  }

  /** What parsing `JSON.stringify(state)` gives back. */
  function Snapshot(t: Trip): Parsed {
    Value(t.budgetPerPerson, Some(t.people), Some(t.expenses))
  }

  /** A saved or exported trip passes the shape check unchanged, so loading what
      was saved, or importing what was exported, restores the same trip. */
  lemma SnapshotRoundTrip(t: Trip)
    ensures ShapeCheck(Snapshot(t)) == Some(t)
    ensures LoadTrip(Some(Snapshot(t))) == t
  {
  }

  /** A snapshot with an empty participant list is accepted as it is. */
  lemma EmptyPeopleAccepted(b: Cents, es: seq<Expense>)
    ensures ShapeCheck(Value(b, Some([]), Some(es))) == Some(Trip(b, [], es))
  {
  }
}
