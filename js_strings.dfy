/** The JavaScript string operation the plugin loader relies on,
    `String.prototype.split` with a one-character separator, and two
    searches used to characterise its pieces: the position of the first `c`
    (or `|s|`) and of the last `c` (or -1). */
module JsStrings {

  /** `s.split(c)`: the pieces of `s` between occurrences of `c`, in order.
      There is always at least one piece and no piece contains `c`;
      JoinSplit shows that putting the separator back gives `s` again. */
  function Split(s: string, c: char): (parts: seq<string>)
    ensures |parts| >= 1
    ensures forall i :: 0 <= i < |parts| ==> c !in parts[i]
  {
    if s == [] then [""]
    else
      var rest := Split(s[1..], c);
      if s[0] == c then [""] + rest
      else [[s[0]] + rest[0]] + rest[1..]
  }

  /** `parts.join(c)`: the inverse of `Split`. */
  function Join(parts: seq<string>, c: char): string
    requires |parts| >= 1
  {
    if |parts| == 1 then parts[0] else parts[0] + [c] + Join(parts[1..], c)
  }

  lemma {:induction false} JoinCons(x: string, tail: seq<string>, c: char)
    requires |tail| >= 1
    ensures Join([x] + tail, c) == x + [c] + Join(tail, c)
  {
  }

  /** The last piece of `Split(s, c)`. */
  function LastPiece(s: string, c: char): string
  {
    var parts := Split(s, c);
    parts[|parts| - 1]
  }

  /** The first piece of `Split(s, c)` (`s.split(c)[0]`). */
  function FirstPiece(s: string, c: char): string
  {
    Split(s, c)[0]
  }

  /** The position of the first `c` in `s`, or `|s|` when there is none. */
  function IndexOf(s: string, c: char): (i: nat)
    ensures i <= |s|
    ensures forall k :: 0 <= k < i ==> s[k] != c
    ensures i < |s| ==> s[i] == c
  {
    if s == [] then 0
    else if s[0] == c then 0
    else
      IndexOf(s[1..], c) + 1
  }

  /** The position of the last `c` in `s`, or -1 when there is none. */
  function LastIndexOf(s: string, c: char): (i: int)
    ensures -1 <= i < |s|
    ensures forall k :: i < k < |s| ==> s[k] != c
    ensures i >= 0 ==> s[i] == c
  {
    if s == [] then -1
    else
      var j := LastIndexOf(s[1..], c);
      if j >= 0 then j + 1
      else if s[0] == c then 0
      else -1
  }

  /** Round trip: joining the pieces of `s` with `c` gives `s`. */
  lemma {:induction false} JoinSplit(s: string, c: char)
    ensures Join(Split(s, c), c) == s
  {
    if s == [] {
      assert Split(s, c) == [""];
    } else {
      JoinSplit(s[1..], c);
      var rest := Split(s[1..], c);
      assert [s[0]] + s[1..] == s;
      if s[0] == c {
        assert Split(s, c) == [""] + rest;
        JoinCons("", rest, c);
      } else if |rest| == 1 {
        assert Split(s, c) == [[s[0]] + rest[0]];
        assert rest[0] == s[1..];
      } else {
        var tail := rest[1..];
        assert Split(s, c) == [[s[0]] + rest[0]] + tail;
        assert [rest[0]] + tail == rest;
        JoinCons(rest[0], tail, c);
        JoinCons([s[0]] + rest[0], tail, c);
        assert s[1..] == rest[0] + [c] + Join(tail, c);
      }
    }
  }

  /** A string free of `c` splits into itself alone. */
  lemma {:induction false} SplitWithoutSeparator(s: string, c: char)
    requires c !in s
    ensures Split(s, c) == [s]
  {
    if s != [] {
      SplitWithoutSeparator(s[1..], c);
      assert [s[0]] + s[1..] == s;
    }
  }

  /** Splitting `x + [c] + y`, where `x` holds no `c`, yields `x` and then
      the pieces of `y`. */
  lemma {:induction false} SplitAfterFirstSeparator(x: string, y: string, c: char)
    requires c !in x
    ensures Split(x + [c] + y, c) == [x] + Split(y, c)
  {
    if x == [] {
      assert x + [c] + y == [c] + y;
      assert ([c] + y)[1..] == y;
    } else {
      SplitAfterFirstSeparator(x[1..], y, c);
      assert (x + [c] + y)[1..] == x[1..] + [c] + y;
      assert [x[0]] + x[1..] == x;
    }
  }

  /** Round trip the other way: splitting the join of separator-free pieces
      gives the pieces back. */
  lemma {:induction false} SplitJoin(parts: seq<string>, c: char)
    requires |parts| >= 1
    requires forall i :: 0 <= i < |parts| ==> c !in parts[i]
    ensures Split(Join(parts, c), c) == parts
  {
    if |parts| == 1 {
      SplitWithoutSeparator(parts[0], c);
    } else {
      assert c !in parts[1..][0];
      SplitJoin(parts[1..], c);
      SplitAfterFirstSeparator(parts[0], Join(parts[1..], c), c);
      assert [parts[0]] + parts[1..] == parts;
    }
  }

  /** The first piece is the text before the first `c`. */
  lemma {:induction false} FirstPieceIsBeforeFirst(s: string, c: char)
    ensures FirstPiece(s, c) == s[..IndexOf(s, c)]
  {
    if s != [] && s[0] != c {
      FirstPieceIsBeforeFirst(s[1..], c);
      assert s[..IndexOf(s, c)] == [s[0]] + s[1..][..IndexOf(s[1..], c)];
    }
  }

  /** The last piece is the text after the last `c`. */
  lemma {:induction false} LastPieceIsAfterLast(s: string, c: char)
    ensures LastPiece(s, c) == s[LastIndexOf(s, c) + 1..]
  {
    if s == [] {
      assert Split(s, c) == [""];
      assert LastIndexOf(s, c) == -1;
      assert LastPiece(s, c) == "";
    } else {
      LastPieceIsAfterLast(s[1..], c);
      LastPieceStep(s, c);
    }
  }

  /** One step of LastPieceIsAfterLast: from `s[1..]` to `s`. */
  lemma {:induction false} LastPieceStep(s: string, c: char)
    requires s != []
    requires LastPiece(s[1..], c) == s[1..][LastIndexOf(s[1..], c) + 1..]
    ensures LastPiece(s, c) == s[LastIndexOf(s, c) + 1..]
  {
    var rest := Split(s[1..], c);
    var j := LastIndexOf(s[1..], c);
    var tail := rest[|rest| - 1];
    assert tail == s[1..][j + 1..];
    if j >= 0 {
      assert LastIndexOf(s, c) == j + 1;
      assert s[j + 2..] == s[1..][j + 1..];
      assert |rest| > 1 || s[0] == c by {
        if |rest| == 1 && s[0] != c {
          JoinSplit(s[1..], c);
          assert false;
        }
      }
      assert LastPiece(s, c) == tail;
    } else {
      assert c !in s[1..];
      SplitWithoutSeparator(s[1..], c);
      assert rest == [s[1..]];
      if s[0] == c {
        assert LastIndexOf(s, c) == 0;
        assert Split(s, c) == [""] + rest;
      } else {
        assert LastIndexOf(s, c) == -1;
        assert Split(s, c) == [[s[0]] + s[1..]];
        assert [s[0]] + s[1..] == s[0..];
      }
    }
  }
}
