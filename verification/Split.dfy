/** The separator splitter shared by the volume and remapping options (src/config.cpp, `split`). */
module Split {
  /** `std::string::find(c, from)`; `|s|` stands for `npos`. */
  function Find(s: string, c: char, from: nat): (i: nat)
    requires from <= |s|
    ensures from <= i <= |s|
    ensures forall t | from <= t < i :: s[t] != c
    ensures i < |s| ==> s[i] == c
    decreases |s| - from
  {
    if from == |s| || s[from] == c then from
    else Find(s, c, from + 1)
  }

  function Join(parts: seq<string>, c: char): string {
    if parts == [] then []
    else if |parts| == 1 then parts[0]
    else parts[0] + [c] + Join(parts[1..], c)
  }

  predicate Free(parts: seq<string>, c: char) {
    forall i | 0 <= i < |parts| :: c !in parts[i]
  }

  /** The pieces of a string between separators. */
  function Pieces(s: string, c: char): (parts: seq<string>)
    ensures parts != []
    decreases |s|
  {
    var i := Find(s, c, 0);
    if i == |s| then [s] else [s[..i]] + Pieces(s[i + 1..], c)
  }

  /** The pieces hold no separator, and joining them restores the string. */
  lemma {:induction false} JoinOfPieces(s: string, c: char)
    ensures Free(Pieces(s, c), c)
    ensures Join(Pieces(s, c), c) == s
    decreases |s|
  {
    var i := Find(s, c, 0);
    if i < |s| {
      JoinOfPieces(s[i + 1..], c);
      assert Pieces(s, c)[1..] == Pieces(s[i + 1..], c);
    }
  }

  /** Joining and splitting separator-free parts gives the parts back. */
  lemma {:induction false} PiecesOfJoin(parts: seq<string>, c: char)
    requires parts != [] && Free(parts, c)
    ensures Pieces(Join(parts, c), c) == parts
  {
    var s := Join(parts, c);
    var i := Find(s, c, 0);
    if |parts| == 1 {
      assert i == |s|;
    } else {
      var n := |parts[0]|;
      assert s[..n] == parts[0] && s[n] == c;
      assert forall t | 0 <= t < n :: s[t] == parts[0][t];
      assert i == n;
      assert s[n + 1..] == Join(parts[1..], c);
      PiecesOfJoin(parts[1..], c);
    }
  }

  /** So `Pieces` is the only way to cut a string into separator-free parts. */
  lemma PiecesUnique(parts: seq<string>, s: string, c: char)
    requires parts != [] && Free(parts, c) && Join(parts, c) == s
    ensures parts == Pieces(s, c)
  {
    PiecesOfJoin(parts, c);
  }

  lemma FindShift(s: string, c: char, from: nat)
    requires from <= |s|
    ensures Find(s[from..], c, 0) == Find(s, c, from) - from
  {}

  /** One turn of the loop below. */
  lemma {:induction false} PiecesStep(s: string, c: char, from: nat)
    requires from <= |s|
    ensures var i := Find(s, c, from);
            Pieces(s[from..], c) == if i == |s| then [s[from..]] else [s[from..i]] + Pieces(s[i + 1..], c)
  {
    FindShift(s, c, from);
    var i, u := Find(s, c, from), s[from..];
    var k := Find(u, c, 0);
    assert k == i - from && |u| == |s| - from;
    if i < |s| {
      assert u[..k] == s[from..i];
      assert u[k + 1..] == s[i + 1..];
    }
  }

  lemma Regroup(output: seq<string>, piece: string, rest: seq<string>)
    ensures output + ([piece] + rest) == (output + [piece]) + rest
  {}

  method SplitAt(s: string, separator: char) returns (output: seq<string>)
    ensures output == Pieces(s, separator)
    ensures output != [] && Free(output, separator) && Join(output, separator) == s
  {
    output := [];
    var prevPos, pos := 0, 0;
    ghost var rest := Pieces(s, separator);
    assert s[0..] == s;
    while true
      invariant prevPos == pos <= |s|
      invariant rest == Pieces(s[prevPos..], separator)
      invariant Pieces(s, separator) == output + rest
      decreases |s| - pos
    {
      PiecesStep(s, separator, pos);
      pos := Find(s, separator, pos);
      if pos == |s| {
        break;
      }
      var substring := s[prevPos..pos];
      rest := Pieces(s[pos + 1..], separator);
      Regroup(output, substring, rest);
      output := output + [substring];
      pos := pos + 1;
      prevPos := pos;
    }
    output := output + [s[prevPos..]]; // the last word
    JoinOfPieces(s, separator);
  }
}
