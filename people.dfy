/**
 * `normalizePeople`: the comma-separated participant list typed into the setup
 * form becomes the list of names, never empty.
 */
module People {
  import opened Text

  /** A well-formed participant name: trimmed, non-empty, and free of commas. */
  predicate IsName(s: string) {
    s != "" && IsTrimmed(s) && ',' !in s
  }

  /** What one piece contributes: its trimmed text, unless that is empty. */
  function Kept(piece: string): seq<string> {
    var t := Trim(piece);
    if t == "" then [] else [t]
  }

  /** `pieces.map(x => x.trim()).filter(Boolean)`. */
  function Names(pieces: seq<string>): (r: seq<string>)
    ensures |r| <= |pieces|
  {
    if pieces == [] then [] else Kept(pieces[0]) + Names(pieces[1..])
  }

  /** Every name kept is a trimmed, non-empty piece; in what order and how often is
      fixed by `NamesAppend` and `NamesSingle`. */
  lemma {:induction false} NamesAreNames(pieces: seq<string>)
    requires forall i :: 0 <= i < |pieces| ==> ',' !in pieces[i]
    ensures forall i :: 0 <= i < |Names(pieces)| ==> IsName(Names(pieces)[i])
  {
    if pieces != [] {
      var t := Trim(pieces[0]);
      NamesAreNames(pieces[1..]);
      assert ',' !in t by { TrimIsSlice(pieces[0]); }
    }
  }

  /** What `trim` keeps is a slice of its argument. */
  lemma TrimIsSlice(s: string)
    ensures exists i, j :: 0 <= i <= j <= |s| && Trim(s) == s[i..j]
  {
    var t := TrimStart(s);
    TrimStartShape(s);
    var i := |s| - |t|;
    var r := TrimEnd(t);
    TrimEndShape(t);
    assert r == t[..|r|] == s[i..i + |r|];
  }

  /** The names of a concatenation are the names of the parts, in order: the
      filter neither reorders nor removes duplicates. */
  lemma {:induction false} NamesAppend(a: seq<string>, b: seq<string>)
    ensures Names(a + b) == Names(a) + Names(b)
  {
    if a == [] {
      assert a + b == b;
    } else {
      assert (a + b)[0] == a[0] && (a + b)[1..] == a[1..] + b;
      NamesAppend(a[1..], b);
      assert Kept(a[0]) + (Names(a[1..]) + Names(b)) == (Kept(a[0]) + Names(a[1..])) + Names(b);
    }
  }

  /** A single piece contributes its trimmed text, or nothing when that is blank. */
  lemma NamesSingle(p: string)
    ensures Names([p]) == (if Trim(p) == "" then [] else [Trim(p)])
  {
    assert [p][1..] == [];
  }

  /** Nothing is kept exactly when every piece is blank. */
  lemma {:induction false} NamesEmpty(pieces: seq<string>)
    ensures Names(pieces) == [] <==> AllBlank(pieces)
  {
    if pieces != [] {
      NamesEmpty(pieces[1..]);
      AllBlankCons(pieces);
    }
  }

  lemma AllBlankCons(pieces: seq<string>)
    requires pieces != []
    ensures AllBlank(pieces) <==> Trim(pieces[0]) == "" && AllBlank(pieces[1..])
  {
    var rest := pieces[1..];
    if AllBlank(pieces) {
      forall i | 0 <= i < |rest| ensures Trim(rest[i]) == "" { assert rest[i] == pieces[i + 1]; }
    }
    if Trim(pieces[0]) == "" && AllBlank(rest) {
      forall i | 0 <= i < |pieces| ensures Trim(pieces[i]) == "" {
        if i > 0 { assert pieces[i] == rest[i - 1]; }
      }
    }
  }

  /** Every piece is blank once trimmed. */
  predicate AllBlank(pieces: seq<string>) {
    forall i :: 0 <= i < |pieces| ==> Trim(pieces[i]) == ""
  }

  /** Never empty; every name is well formed; `["Me"]` exactly when no piece has
      text, otherwise the trimmed non-blank pieces in input order. */
  function NormalizePeople(input: string): (r: seq<string>)
    ensures |r| >= 1
    ensures forall i :: 0 <= i < |r| ==> IsName(r[i])
    ensures AllBlank(Split(input, ',')) ==> r == ["Me"]
    ensures !AllBlank(Split(input, ',')) ==> r == Names(Split(input, ','))
  {
    var pieces := Split(input, ',');
    var names := Names(pieces);
    SplitPiecesWithoutSep(input, ',');
    NamesAreNames(pieces);
    NamesEmpty(pieces);
    if |names| > 0 then names else ["Me"]
  }

  /** The first piece of the joined text, after the white space typed before it. */
  lemma {:induction false} NamesOfFirst(pre: string, x: string)
    requires AllSpace(pre) && IsName(x)
    ensures Names([pre + x]) == [x]
  {
    assert pre + x + [] == pre + x;
    TrimUnique(pre, x, []);
    NamesSingle(pre + x);
  }

  /** The joined text after its first name: a comma, then a space before the rest. */
  lemma {:induction false} JoinShape(pre: string, xs: seq<string>)
    requires |xs| >= 2
    ensures pre + Join(xs, ", ") == (pre + xs[0]) + [','] + (" " + Join(xs[1..], ", "))
  {
    var rest := Join(xs[1..], ", ");
    assert Join(xs, ", ") == xs[0] + ", " + rest;
    assert ", " == [','] + " ";
  }

  /** A name after white space contains no comma. */
  lemma {:induction false} FirstHasNoComma(pre: string, x: string)
    requires AllSpace(pre) && IsName(x)
    ensures ',' !in pre + x
  {
    forall i | 0 <= i < |pre + x| ensures (pre + x)[i] != ',' {
      if i < |pre| {
        assert IsSpace(pre[i]);
      } else {
        assert (pre + x)[i] == x[i - |pre|];
      }
    }
  }

  /** Splitting the joined text yields the first name, with the white space before
      it, and then the pieces of the rest, each after a space. */
  lemma {:induction false} SplitJoinStep(pre: string, xs: seq<string>)
    requires AllSpace(pre) && |xs| >= 2 && IsName(xs[0])
    ensures Split(pre + Join(xs, ", "), ',') == [pre + xs[0]] + Split(" " + Join(xs[1..], ", "), ',')
  {
    FirstHasNoComma(pre, xs[0]);
    JoinShape(pre, xs);
    SplitAtSep(pre + xs[0], ',', " " + Join(xs[1..], ", "));
  }

  /** A piece kept as the first name, followed by pieces kept as the other names. */
  lemma NamesCons(first: string, tail: seq<string>, xs: seq<string>)
    requires |xs| >= 1 && Names([first]) == [xs[0]] && Names(tail) == xs[1..]
    ensures Names([first] + tail) == xs
  {
    NamesAppend([first], tail);
    assert xs == [xs[0]] + xs[1..];
  }

  /** The first name, then the names of the rest: one step of `NamesOfJoin`. */
  lemma NamesJoinStep(pre: string, xs: seq<string>)
    requires AllSpace(pre) && |xs| >= 2 && IsName(xs[0])
    requires Names(Split(" " + Join(xs[1..], ", "), ',')) == xs[1..]
    ensures Names(Split(pre + Join(xs, ", "), ',')) == xs
  {
    SplitJoinStep(pre, xs);
    NamesOfFirst(pre, xs[0]);
    NamesCons(pre + xs[0], Split(" " + Join(xs[1..], ", "), ','), xs);
  }

  /** The names of the joined text, after white space `pre` typed before the list,
      are the names joined. */
  lemma {:induction false} NamesOfJoin(pre: string, xs: seq<string>)
    requires AllSpace(pre)
    requires |xs| >= 1 && forall i :: 0 <= i < |xs| ==> IsName(xs[i])
    ensures Names(Split(pre + Join(xs, ", "), ',')) == xs
    decreases |xs|
  {
    if |xs| == 1 {
      NamesOfFirst(pre, xs[0]);
      FirstHasNoComma(pre, xs[0]);
      SplitWithoutSep(pre + xs[0], ',');
    } else {
      assert AllSpace(" ") by { assert IsSpace(' '); }
      assert forall i :: 0 <= i < |xs[1..]| ==> xs[1..][i] == xs[i + 1];
      NamesOfJoin(" ", xs[1..]);
      NamesJoinStep(pre, xs);
    }
  }

  /** Joining names as the setup form shows them (`people.join(", ")`) and
      normalizing again gives back the same list: saving the setup unedited keeps
      `people` as it is. */
  lemma {:induction false} NormalizeJoin(people: seq<string>)
    requires |people| >= 1 && forall i :: 0 <= i < |people| ==> IsName(people[i])
    ensures NormalizePeople(Join(people, ", ")) == people
  {
    assert "" + Join(people, ", ") == Join(people, ", ");
    NamesOfJoin("", people);
  }

  /** An empty setup field falls back to `["Me"]`. */
  lemma NormalizeEmpty()
    ensures NormalizePeople("") == ["Me"]
  {
    assert Split("", ',') == [""];
  }

  /** Duplicates are kept as written, and the spaces after the commas are dropped. */
  lemma NormalizeKeepsDuplicates()
    ensures NormalizePeople("Alice, Bob, Alice") == ["Alice", "Bob", "Alice"]
  {
    var xs := ["Alice", "Bob", "Alice"];
    assert Join(xs, ", ") == "Alice, Bob, Alice" by {
      assert xs[1..] == ["Bob", "Alice"] && xs[1..][1..] == ["Alice"];
    }
    assert IsName("Alice") && IsName("Bob");
    NormalizeJoin(xs);
  }

  /** Without well-formed names the setup round trip fails: an empty list comes
      back as `["Me"]`, and a name with a comma comes back split in two. */
  lemma {:induction false} NormalizeJoinNeedsNames()
    ensures NormalizePeople(Join([], ", ")) == ["Me"]
    ensures NormalizePeople(Join(["A,B"], ", ")) == ["A", "B"]
  {
    NormalizeEmpty();
    assert Join(["A,B"], ", ") == "A,B";
    SplitCommaName();
    NamesTwo("A", "B");
  }

  /** `"A,B"` splits at its comma. */
  lemma SplitCommaName()
    ensures Split("A,B", ',') == ["A", "B"]
  {
    assert "A,B" == "A" + [','] + "B";
    SplitAtSep("A", ',', "B");
    SplitWithoutSep("B", ',');
  }

  /** Two pieces that are already names are kept as they are. */
  lemma NamesTwo(a: string, b: string)
    requires IsName(a) && IsName(b)
    ensures Names([a, b]) == [a, b]
  {
    assert [a, b] == [a] + [b];
    NamesAppend([a], [b]);
    NamesSingle(a);
    NamesSingle(b);
    TrimTrimmed(a);
    TrimTrimmed(b);
  }
}
