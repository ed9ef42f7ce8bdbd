/** What one edit does to a text: exact matches, found from the left without overlap, replaced. */
module EditText {
  import opened Common

  type Text = seq<char>

  predicate StartsWith(t: Text, find: Text) {
    |find| <= |t| && t[..|find|] == find
  }

  /** The number of matches, each search going on after the last match. */
  function CountMatches(t: Text, find: Text): nat
    requires find != []
    decreases |t|
  {
    if t == [] then 0
    else if StartsWith(t, find) then 1 + CountMatches(t[|find|..], find)
    else CountMatches(t[1..], find)
  }

  function Replaced(t: Text, find: Text, put: Text): Text
    requires find != []
    decreases |t|
  {
    if t == [] then []
    else if StartsWith(t, find) then put + Replaced(t[|find|..], find, put)
    else [t[0]] + Replaced(t[1..], find, put)
  }

  /** The input of an edit: the text to find and its replacement may be missing. */
  datatype Spec = Spec(find: Option<Text>, put: Option<Text>, replaceAll: bool)

  datatype EditError = MissingOld | MissingNew | EmptyOld | WrongCount(found: nat)

  function Edited(spec: Spec, t: Text): Result<Text, EditError> {
    if spec.find.None? then Err(MissingOld)
    else if spec.put.None? then Err(MissingNew)
    else if spec.find.value == [] then Err(EmptyOld)
    else
      var count := CountMatches(t, spec.find.value);
      if count == 0 || (count != 1 && !spec.replaceAll) then Err(WrongCount(count))
      else Ok(Replaced(t, spec.find.value, spec.put.value))
  }

  /** The text is cut at every match: the pieces joined by what was found give it back. */
  function Pieces(t: Text, find: Text): (p: seq<Text>)
    requires find != []
    ensures |p| == CountMatches(t, find) + 1
    decreases |t|
  {
    if t == [] then [[]]
    else if StartsWith(t, find) then [[]] + Pieces(t[|find|..], find)
    else
      var rest := Pieces(t[1..], find);
      [[t[0]] + rest[0]] + rest[1..]
  }

  function Joined(pieces: seq<Text>, glue: Text): Text
    requires pieces != []
  {
    if |pieces| == 1 then pieces[0] else pieces[0] + glue + Joined(pieces[1..], glue)
  }

  lemma JoinedAfter(first: Text, pieces: seq<Text>, glue: Text)
    requires pieces != []
    ensures Joined([first + pieces[0]] + pieces[1..], glue) == first + Joined(pieces, glue)
    ensures Joined([[]] + pieces, glue) == glue + Joined(pieces, glue)
  {
    var all := [first + pieces[0]] + pieces[1..];
    assert all[1..] == pieces[1..];
    assert ([[]] + pieces)[1..] == pieces;
    assert [] + glue + Joined(pieces, glue) == glue + Joined(pieces, glue);
    if |pieces| > 1 {
      var rest := Joined(pieces[1..], glue);
      assert first + pieces[0] + glue + rest == first + (pieces[0] + glue + rest);
    }
  }

  /** Joining the pieces with any text is the text with every match replaced by it. */
  lemma {:induction false} ReplacedIsJoined(t: Text, find: Text, put: Text)
    requires find != []
    ensures Replaced(t, find, put) == Joined(Pieces(t, find), put)
    decreases |t|
  {
    hide Joined, StartsWith;
    if t == [] {
      assert Joined([[]], put) == [] by { JoinedOne(put); }
    } else if StartsWith(t, find) {
      MatchFits(t, find);
      ReplacedIsJoined(t[|find|..], find, put);
      JoinedAfter([], Pieces(t[|find|..], find), put);
    } else {
      ReplacedIsJoined(t[1..], find, put);
      JoinedAfter([t[0]], Pieces(t[1..], find), put);
    }
  }

  lemma JoinedOne(glue: Text)
    ensures Joined([[]], glue) == []
  {
  }

  lemma MatchFits(t: Text, find: Text)
    requires StartsWith(t, find)
    ensures |find| <= |t| && find + t[|find|..] == t
  {
  }

  /** Putting back what was found changes nothing, so the pieces and the matches make up the text. */
  lemma {:induction false} PutBack(t: Text, find: Text)
    requires find != []
    ensures Replaced(t, find, find) == t
    decreases |t|
  {
    hide StartsWith;
    if t == [] {
    } else if StartsWith(t, find) {
      MatchFits(t, find);
      PutBack(t[|find|..], find);
    } else {
      PutBack(t[1..], find);
      assert [t[0]] + t[1..] == t;
    }
  }

  /** An edit without `replaceAll` succeeds only where one match is, and changes that match alone. */
  lemma SingleEdit(spec: Spec, t: Text)
    requires Edited(spec, t).Ok? && !spec.replaceAll
    ensures var p := Pieces(t, spec.find.value);
            && |p| == 2 && t == p[0] + spec.find.value + p[1]
            && Edited(spec, t).value == p[0] + spec.put.value + p[1]
  {
    var p := Pieces(t, spec.find.value);
    PutBack(t, spec.find.value);
    ReplacedIsJoined(t, spec.find.value, spec.find.value);
    ReplacedIsJoined(t, spec.find.value, spec.put.value);
    assert Joined(p[1..], spec.find.value) == p[1] && Joined(p[1..], spec.put.value) == p[1];
  }

  // ----- what an edit does, said of the text alone -----

  predicate Occurs(t: Text, find: Text, k: nat) {
    k + |find| <= |t| && t[k..k + |find|] == find
  }

  /** No match starts among the first `n` characters. */
  ghost predicate Free(t: Text, find: Text, n: nat) {
    forall k: nat :: k < n ==> !Occurs(t, find, k)
  }

  /** Pieces cut at the first match each time: none starts inside a piece that a match follows, or in the last piece. */
  ghost predicate IsCut(pieces: seq<Text>, find: Text) {
    && pieces != []
    && if |pieces| == 1 then Free(pieces[0], find, |pieces[0]|)
       else Free(pieces[0] + find, find, |pieces[0]|) && IsCut(pieces[1..], find)
  }

  lemma JoinedStarts(pieces: seq<Text>, glue: Text)
    requires |pieces| > 1
    ensures var t, first := Joined(pieces, glue), pieces[0] + glue;
            |first| <= |t| && t[..|first|] == first && t[|first|..] == Joined(pieces[1..], glue)
  {
  }

  lemma JoinedSingle(pieces: seq<Text>, glue: Text)
    requires |pieces| == 1
    ensures Joined(pieces, glue) == pieces[0]
  {
  }

  lemma OccursShifted(first: char, t: Text, find: Text, k: nat)
    requires k > 0 && Occurs([first] + t, find, k)
    ensures Occurs(t, find, k - 1)
  {
    assert t[k - 1..k - 1 + |find|] == ([first] + t)[k..k + |find|];
  }

  lemma FreeShifted(first: char, t: Text, find: Text, n: nat)
    requires Free(t, find, n) && !StartsWith([first] + t, find)
    ensures Free([first] + t, find, n + 1)
  {
    hide Occurs, StartsWith;
    forall k: nat | k < n + 1
      ensures !Occurs([first] + t, find, k)
    {
      if k == 0 {
        OccursFirst([first] + t, find);
      } else if Occurs([first] + t, find, k) {
        OccursShifted(first, t, find, k);
      }
    }
  }

  lemma OccursFirst(t: Text, find: Text)
    ensures Occurs(t, find, 0) <==> StartsWith(t, find)
  {
  }

  /** A text starts with what a beginning of it starts with. */
  lemma StartsWithin(t: Text, n: nat, find: Text)
    requires n <= |t| && StartsWith(t[..n], find)
    ensures StartsWith(t, find)
  {
    assert t[..n][..|find|] == t[..|find|];
  }

  lemma CutShifted(first: char, pieces: seq<Text>, find: Text)
    requires IsCut(pieces, find) && !StartsWith(Joined([[first] + pieces[0]] + pieces[1..], find), find)
    ensures IsCut([[first] + pieces[0]] + pieces[1..], find)
  {
    hide Joined, StartsWith, Free;
    var all := [[first] + pieces[0]] + pieces[1..];
    assert all[1..] == pieces[1..];
    if |pieces| == 1 {
      JoinedSingle(all, find);
      FreeShifted(first, pieces[0], find, |pieces[0]|);
    } else {
      JoinedStarts(all, find);
      var whole := all[0] + find;
      assert whole == [first] + (pieces[0] + find);
      if StartsWith(whole, find) {
        StartsWithin(Joined(all, find), |whole|, find);
      }
      FreeShifted(first, pieces[0] + find, find, |pieces[0]|);
    }
  }

  lemma {:induction false} PiecesAreCut(t: Text, find: Text)
    requires find != []
    ensures IsCut(Pieces(t, find), find) && Joined(Pieces(t, find), find) == t
    decreases |t|
  {
    hide Joined, IsCut;
    ReplacedIsJoined(t, find, find);
    PutBack(t, find);
    if t == [] {
      EmptyIsCut(find);
    } else if StartsWith(t, find) {
      PiecesAreCut(t[|find|..], find);
      CutAtStart(Pieces(t[|find|..], find), find);
    } else {
      PiecesAreCut(t[1..], find);
      CutShifted(t[0], Pieces(t[1..], find), find);
    }
  }

  lemma EmptyIsCut(find: Text)
    ensures IsCut([[]], find)
  {
  }

  lemma CutAtStart(pieces: seq<Text>, find: Text)
    requires IsCut(pieces, find)
    ensures IsCut([[]] + pieces, find)
  {
    assert ([[]] + pieces)[1..] == pieces;
  }

  lemma MatchAfter(pieces: seq<Text>, find: Text)
    requires |pieces| > 1 && find != []
    ensures !Free(Joined(pieces, find), find, |Joined(pieces, find)|)
  {
    var t, n := Joined(pieces, find), |pieces[0]|;
    JoinedStarts(pieces, find);
    hide Joined;
    assert t[n..n + |find|] == t[..n + |find|][n..];
    assert Occurs(t, find, n);
  }

  /** Where a text starts with two pieces, each followed by a match, the shorter one's match is in the other. */
  lemma MatchWithin(t: Text, a: Text, b: Text, find: Text)
    requires |a| + |find| <= |t| && t[..|a| + |find|] == a + find && |b| + |find| <= |t| && t[..|b| + |find|] == b + find
    requires |a| < |b|
    ensures !Free(b + find, find, |b|)
  {
    assert (b + find)[|a|..|a| + |find|] == t[..|a| + |find|][|a|..];
    assert Occurs(b + find, find, |a|);
  }

  /** There is one way to cut a text at the first match each time. */
  lemma {:induction false} CutIsUnique(a: seq<Text>, b: seq<Text>, find: Text)
    requires find != [] && IsCut(a, find) && IsCut(b, find) && Joined(a, find) == Joined(b, find)
    ensures a == b
    decreases |a|
  {
    hide Joined, Free;
    var t := Joined(a, find);
    if |a| == 1 {
      JoinedSingle(a, find);
    } else {
      JoinedStarts(a, find);
      MatchAfter(a, find);
    }
    if |b| == 1 {
      JoinedSingle(b, find);
    } else {
      JoinedStarts(b, find);
      MatchAfter(b, find);
    }
    if |a| > 1 {
      SameFirst(t, a[0], b[0], find);
      CutIsUnique(a[1..], b[1..], find);
      assert a == [a[0]] + a[1..] && b == [b[0]] + b[1..];
    }
  }

  lemma SameFirst(t: Text, a: Text, b: Text, find: Text)
    requires |a| + |find| <= |t| && t[..|a| + |find|] == a + find && |b| + |find| <= |t| && t[..|b| + |find|] == b + find
    requires Free(a + find, find, |a|) && Free(b + find, find, |b|)
    ensures a == b
  {
    hide Free;
    if |a| < |b| {
      MatchWithin(t, a, b, find);
    } else if |b| < |a| {
      MatchWithin(t, b, a, find);
    }
    assert a == t[..|a|] && b == t[..|b|] by {
      assert (a + find)[..|a|] == a && (b + find)[..|b|] == b;
      assert t[..|a| + |find|][..|a|] == t[..|a|] && t[..|b| + |find|][..|b|] == t[..|b|];
    }
  }

  /**
   An edit succeeds exactly when the text to find is given, not empty, and matches once, or more often under
   `replaceAll`; then the pieces between the matches are joined by the new text.
   */
  lemma EditIff(spec: Spec, t: Text, out: Text)
    ensures Edited(spec, t) == Ok(out)
            <==> spec.find.Some? && spec.put.Some? && spec.find.value != []
                 && exists pieces: seq<Text> ::
                      && IsCut(pieces, spec.find.value) && Joined(pieces, spec.find.value) == t
                      && (|pieces| == 2 || (|pieces| > 2 && spec.replaceAll)) && out == Joined(pieces, spec.put.value)
  {
    if spec.find.Some? && spec.put.Some? && spec.find.value != [] {
      var find := spec.find.value;
      PiecesAreCut(t, find);
      ReplacedIsJoined(t, find, spec.put.value);
      hide Joined, IsCut, Replaced, Pieces;
      forall pieces: seq<Text> | IsCut(pieces, find) && Joined(pieces, find) == t
        ensures pieces == Pieces(t, find)
      {
        CutIsUnique(pieces, Pieces(t, find), find);
      }
    }
  }

  /** Each error, and the number of matches it reports. */
  lemma EditErrors(spec: Spec, t: Text)
    ensures Edited(spec, t) == Err(MissingOld) <==> spec.find.None?
    ensures Edited(spec, t) == Err(MissingNew) <==> spec.find.Some? && spec.put.None?
    ensures Edited(spec, t) == Err(EmptyOld) <==> spec.find == Some([]) && spec.put.Some?
    ensures forall n: nat :: Edited(spec, t) == Err(WrongCount(n))
              <==> spec.find.Some? && spec.put.Some? && spec.find.value != []
                   && (n == 0 || (n > 1 && !spec.replaceAll))
                   && exists pieces: seq<Text> ::
                        IsCut(pieces, spec.find.value) && Joined(pieces, spec.find.value) == t && |pieces| == n + 1
  {
    if spec.find.Some? && spec.put.Some? && spec.find.value != [] {
      var find := spec.find.value;
      PiecesAreCut(t, find);
      hide Joined, IsCut, Pieces;
      forall pieces: seq<Text> | IsCut(pieces, find) && Joined(pieces, find) == t
        ensures pieces == Pieces(t, find)
      {
        CutIsUnique(pieces, Pieces(t, find), find);
      }
    }
  }

  // ----- composition -----

  function Composed(edits: seq<Spec>, t: Text): Option<Text> {
    if edits == [] then Some(t)
    else
      var before := Composed(edits[..|edits| - 1], t);
      if before.Some? && Edited(edits[|edits| - 1], before.value).Ok?
      then Some(Edited(edits[|edits| - 1], before.value).value) else None
  }

  lemma ComposedSnoc(edits: seq<Spec>, spec: Spec, t: Text)
    requires Composed(edits, t).Some? && Edited(spec, Composed(edits, t).value).Ok?
    ensures Composed(edits + [spec], t) == Some(Edited(spec, Composed(edits, t).value).value)
  {
    assert (edits + [spec])[..|edits|] == edits;
  }
}
