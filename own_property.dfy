/**
 * `perPersonTotals` as written keeps its totals in a plain object and asks
 * `map.hasOwnProperty(name)` before each addition. That call looks the method
 * up on the object itself, so once a participant or a payer named
 * "hasOwnProperty" has become an own key holding a number, the next call throws
 * a TypeError and the totals (and the rest of the render) are not produced.
 * `Ledger.PerPersonTotals` is the intended behaviour: an own-key test that
 * cannot be shadowed.
 */
module OwnProperty {
  import opened Wrappers
  import opened Expenses

  const Shadowing: string := "hasOwnProperty"

  /** The totals as the code computes them; `None` is the TypeError. */
  function TotalsAsWritten(people: seq<string>, es: seq<Expense>): (r: Option<map<string, Cents>>)
    ensures Shadowing in people && es != [] ==> r.None?
    decreases |es|
  {
    if es == [] then Some(map p | p in people :: 0)
    else
      match TotalsAsWritten(people, es[..|es| - 1])
      case None => None
      case Some(m) =>
        if Shadowing in m then None
        else
          Some(Credit(m, es[|es| - 1]))
  }

  /** Without that name anywhere, the code computes the intended totals. */
  lemma {:induction false} AsWrittenAgrees(people: seq<string>, es: seq<Expense>)
    requires Shadowing !in people
    requires forall i :: 0 <= i < |es| ==> PayerKey(es[i]) != Shadowing
    ensures TotalsAsWritten(people, es).Some?
    ensures IsTotalsOf(TotalsAsWritten(people, es).value, people, es)
    decreases |es|
  {
    if es == [] {
      TotalsStart(people);
    } else {
      var es' := es[..|es| - 1];
      assert forall i :: 0 <= i < |es'| ==> es'[i] == es[i];
      AsWrittenAgrees(people, es');
      var m := TotalsAsWritten(people, es').value;
      NotAKey(people, es', Shadowing);
      assert Shadowing !in m;
      AsWrittenSnoc(people, es, m);
      TotalsStepLast(m, people, es);
    }
  }

  /** One more expense, when the name is not yet a key: credited as intended. */
  lemma AsWrittenSnoc(people: seq<string>, es: seq<Expense>, m: map<string, Cents>)
    requires es != [] && TotalsAsWritten(people, es[..|es| - 1]) == Some(m) && Shadowing !in m
    ensures TotalsAsWritten(people, es) == Some(Credit(m, es[|es| - 1]))
  {
  }

  /** One more expense, once the name is a key: the call throws. */
  lemma AsWrittenThrows(people: seq<string>, es: seq<Expense>, m: map<string, Cents>)
    requires es != [] && TotalsAsWritten(people, es[..|es| - 1]) == Some(m) && Shadowing in m
    ensures TotalsAsWritten(people, es).None?
  {
  }

  /** A name that is neither a participant nor a payer key is not a key. */
  lemma NotAKey(people: seq<string>, es: seq<Expense>, k: string)
    requires k !in people
    requires forall i :: 0 <= i < |es| ==> PayerKey(es[i]) != k
    ensures k !in TotalsKeys(people, es)
  {
  }

  /** A participant named "hasOwnProperty" and one expense: the code throws, while
      the intended totals exist and credit that participant. */
  lemma ShadowedByParticipant()
    ensures TotalsAsWritten([Shadowing], [Expense("e1", "2024-01-01", "Food", "", Shadowing, 25000)]).None?
    ensures IsTotalsOf(map[Shadowing := 25000], [Shadowing], [Expense("e1", "2024-01-01", "Food", "", Shadowing, 25000)])
  {
    var e := Expense("e1", "2024-01-01", "Food", "", Shadowing, 25000);
    var m0 := map[Shadowing := 0];
    assert (map p | p in [Shadowing] :: 0) == m0;
    assert [e][..0] == [];
    AsWrittenThrows([Shadowing], [e], m0);
    TotalsStart([Shadowing]);
    TotalsStep(m0, [Shadowing], [], e);
    assert [] + [e] == [e];
    assert Credit(m0, e) == map[Shadowing := 25000];
  }

  /** Without any such participant, two expenses paid under that name make the
      second addition throw. */
  lemma ShadowedByPayer()
    ensures TotalsAsWritten(["Me"], [Expense("e1", "2024-01-01", "Food", "", Shadowing, 100),
                                     Expense("e2", "2024-01-02", "Food", "", "Me", 200)]).None?
  {
    var e1 := Expense("e1", "2024-01-01", "Food", "", Shadowing, 100);
    var e2 := Expense("e2", "2024-01-02", "Food", "", "Me", 200);
    assert [e1, e2][..1] == [e1];
    assert [e1][..0] == [];
    assert (map p | p in ["Me"] :: 0) == map["Me" := 0];
  }
}
