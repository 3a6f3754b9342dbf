/**
 * The order in which expenses are listed: a copy of `expenses` sorted by date,
 * `[...expenses].sort((a, b) => (a.date || "").localeCompare(b.date || ""))`.
 * The comparison is modelled as character-by-character lexicographic order,
 * which is how `localeCompare` orders dates written `YYYY-MM-DD`. The sort is
 * stable, so expenses on the same date stay in insertion order.
 */
module DisplayOrder {
  import opened Expenses

  /** `a` sorts no later than `b`. */
  predicate DateLe(a: string, b: string) {
    |a| == 0 || (|b| > 0 && (a[0] < b[0] || (a[0] == b[0] && DateLe(a[1..], b[1..]))))
  }

  lemma {:induction false} DateLeRefl(a: string)
    ensures DateLe(a, a)
  {
    if |a| > 0 {
      DateLeRefl(a[1..]);
    }
  }

  lemma {:induction false} DateLeTotal(a: string, b: string)
    ensures DateLe(a, b) || DateLe(b, a)
  {
    if |a| > 0 && |b| > 0 && a[0] == b[0] {
      DateLeTotal(a[1..], b[1..]);
    }
  }

  lemma {:induction false} DateLeTrans(a: string, b: string, c: string)
    requires DateLe(a, b) && DateLe(b, c)
    ensures DateLe(a, c)
  {
    if |a| > 0 && a[0] == b[0] && b[0] == c[0] {
      DateLeTrans(a[1..], b[1..], c[1..]);
    }
  }

  lemma {:induction false} DateLeAntisym(a: string, b: string)
    requires DateLe(a, b) && DateLe(b, a)
    ensures a == b
  {
    if |a| > 0 {
      DateLeAntisym(a[1..], b[1..]);
      assert a == [a[0]] + a[1..] && b == [b[0]] + b[1..];
    }
  }

  predicate SortedByDate(es: seq<Expense>) {
    forall i, j :: 0 <= i < j < |es| ==> DateLe(es[i].date, es[j].date)
  }

  /** Places `e` before the first expense that does not sort strictly earlier. */
  function Insert(e: Expense, s: seq<Expense>): (r: seq<Expense>)
    ensures |r| == |s| + 1
  {
    if s == [] || DateLe(e.date, s[0].date) then [e] + s else [s[0]] + Insert(e, s[1..])
  }

  /** The displayed list; `expenses` itself is a value and stays as it was. */
  function SortByDate(es: seq<Expense>): (shown: seq<Expense>)
    ensures |shown| == |es|
  {
    if es == [] then [] else Insert(es[0], SortByDate(es[1..]))
  }

  lemma {:induction false} InsertPerm(e: Expense, s: seq<Expense>)
    ensures multiset(Insert(e, s)) == multiset(s) + multiset{e}
  {
    if s != [] && !DateLe(e.date, s[0].date) {
      InsertPerm(e, s[1..]);
      assert s == [s[0]] + s[1..];
    }
  }

  /** Inserting an expense no earlier than `lo` into expenses no earlier than `lo`
      gives expenses no earlier than `lo`. */
  lemma {:induction false} InsertLowerBound(e: Expense, s: seq<Expense>, lo: string)
    requires DateLe(lo, e.date)
    requires forall k :: 0 <= k < |s| ==> DateLe(lo, s[k].date)
    ensures forall k :: 0 <= k < |Insert(e, s)| ==> DateLe(lo, Insert(e, s)[k].date)
  {
    if s != [] && !DateLe(e.date, s[0].date) {
      assert forall k :: 0 <= k < |s[1..]| ==> s[1..][k] == s[k + 1];
      InsertLowerBound(e, s[1..], lo);
    }
  }

  lemma {:induction false} InsertSorted(e: Expense, s: seq<Expense>)
    requires SortedByDate(s)
    ensures SortedByDate(Insert(e, s))
    ensures |Insert(e, s)| == |s| + 1
  {
    if s == [] || DateLe(e.date, s[0].date) {
      var r := [e] + s;
      forall i, j | 0 <= i < j < |r| ensures DateLe(r[i].date, r[j].date) {
        if i == 0 {
          assert r[j] == s[j - 1];
          if j > 1 { DateLeTrans(e.date, s[0].date, s[j - 1].date); }
        } else {
          assert r[i] == s[i - 1] && r[j] == s[j - 1];
        }
      }
    } else {
      var t := s[1..];
      assert SortedByDate(t) by {
        forall i, j | 0 <= i < j < |t| ensures DateLe(t[i].date, t[j].date) {
          assert t[i] == s[i + 1] && t[j] == s[j + 1];
        }
      }
      InsertSorted(e, t);
      DateLeTotal(e.date, s[0].date);
      assert forall k :: 0 <= k < |t| ==> DateLe(s[0].date, t[k].date) by {
        forall k | 0 <= k < |t| ensures DateLe(s[0].date, t[k].date) { assert t[k] == s[k + 1]; }
      }
      InsertLowerBound(e, t, s[0].date);
      var r := Insert(e, t);
      var q := [s[0]] + r;
      forall i, j | 0 <= i < j < |q| ensures DateLe(q[i].date, q[j].date) {
        assert q[j] == r[j - 1];
        if i > 0 { assert q[i] == r[i - 1]; }
      }
    }
  }

  /** The displayed list is ordered by non-decreasing date. */
  lemma {:induction false} SortByDateSorted(es: seq<Expense>)
    ensures SortedByDate(SortByDate(es))
  {
    if es != [] {
      SortByDateSorted(es[1..]);
      InsertSorted(es[0], SortByDate(es[1..]));
    }
  }

  /** The displayed list shows every stored expense exactly as often as it is stored. */
  lemma {:induction false} SortByDatePerm(es: seq<Expense>)
    ensures multiset(SortByDate(es)) == multiset(es)
  {
    if es != [] {
      SortByDatePerm(es[1..]);
      InsertPerm(es[0], SortByDate(es[1..]));
      assert es == [es[0]] + es[1..];
    }
  }

  /** The expenses dated `d`, in order. */
  function OnDate(es: seq<Expense>, d: string): seq<Expense> {
    if es == [] then [] else (if es[0].date == d then [es[0]] else []) + OnDate(es[1..], d)
  }

  lemma OnDateCons(x: Expense, r: seq<Expense>, d: string)
    ensures OnDate([x] + r, d) == (if x.date == d then [x] else []) + OnDate(r, d)
  {
    assert ([x] + r)[1..] == r;
  }

  lemma {:induction false} InsertOnDate(e: Expense, s: seq<Expense>, d: string)
    ensures OnDate(Insert(e, s), d) == (if e.date == d then [e] else []) + OnDate(s, d)
  {
    if s == [] || DateLe(e.date, s[0].date) {
      OnDateCons(e, s, d);
    } else {
      var r := Insert(e, s[1..]);
      InsertOnDate(e, s[1..], d);
      OnDateCons(s[0], r, d);
      OnDateCons(s[0], s[1..], d);
      assert s == [s[0]] + s[1..];
      if e.date == d {
        DateLeRefl(d);
        assert s[0].date != d;
        assert OnDate(Insert(e, s), d) == [e] + OnDate(s[1..], d);
      } else {
        assert OnDate(Insert(e, s), d) == (if s[0].date == d then [s[0]] else []) + OnDate(s[1..], d);
      }
    }
  }

  /** Stability: the expenses of any one date appear in the order they were added. */
  lemma {:induction false} SortByDateStable(es: seq<Expense>, d: string)
    ensures OnDate(SortByDate(es), d) == OnDate(es, d)
  {
    if es != [] {
      SortByDateStable(es[1..], d);
      InsertOnDate(es[0], SortByDate(es[1..]), d);
    }
  }

  /** The displayed list adds up to the same total as the stored one. */
  lemma {:induction false} SortByDateSpent(es: seq<Expense>)
    ensures TotalSpent(SortByDate(es)) == TotalSpent(es)
  {
    if es != [] {
      SortByDateSpent(es[1..]);
      InsertSpent(es[0], SortByDate(es[1..]));
      TotalSpentAppend([es[0]], es[1..]);
      assert es == [es[0]] + es[1..];
      assert TotalSpent([es[0]]) == es[0].amount by { assert [es[0]][..0] == []; }
    }
  }

  lemma {:induction false} InsertSpent(e: Expense, s: seq<Expense>)
    ensures TotalSpent(Insert(e, s)) == e.amount + TotalSpent(s)
  {
    assert TotalSpent([e]) == e.amount by { assert [e][..0] == []; }
    if s == [] || DateLe(e.date, s[0].date) {
      TotalSpentAppend([e], s);
    } else {
      InsertSpent(e, s[1..]);
      TotalSpentAppend([s[0]], Insert(e, s[1..]));
      TotalSpentAppend([s[0]], s[1..]);
      assert s == [s[0]] + s[1..];
      assert TotalSpent([s[0]]) == s[0].amount by { assert [s[0]][..0] == []; }
    }
  }
}
