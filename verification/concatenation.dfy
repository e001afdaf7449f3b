/**
 `inefficient_string_concatenation(n)`: the string `"0-1-...-(n-1)-"`, built by
 appending `str(i) + "-"` for `i` from 0 to `n - 1`. The contract is checked against
 the inverse reading: splitting the result at `-` and parsing each part gives back
 0, 1, ..., n - 1.
 */
module Concatenation {
  import opened Values
  import opened Errors
  import opened Decimal

  /** The strings in `ss` joined end to end, first to last. */
  function Concat(ss: seq<string>): (s: string)
  {
    if |ss| == 0 then "" else ss[0] + Concat(ss[1..])
  }

  /** The pieces the loop appends, in order: `str(i) + "-"` for `i` in `range(n)`. */
  function Pieces(n: nat): (ps: seq<string>)
  {
    seq(n, i => IntToString(i) + "-")
  }

  /** `s.split("-")`. */
  function SplitOnDash(s: string): (parts: seq<string>)
    ensures |parts| > 0
    decreases |s|
  {
    if |s| == 0 then [""]
    else
      var rest := SplitOnDash(s[1..]);
      if s[0] == '-' then [""] + rest else [[s[0]] + rest[0]] + rest[1..]
  }

  /** `s.count("-")`. */
  function CountDashes(s: string): (n: nat)
  {
    multiset(s)['-']
  }

  lemma {:induction false} ConcatSnoc(ss: seq<string>, s: string)
    ensures Concat(ss + [s]) == Concat(ss) + s
    decreases |ss|
  {
    if |ss| == 0 {
      assert ss + [s] == [s];
      assert Concat([s]) == s + Concat([]);
    } else {
      assert (ss + [s])[1..] == ss[1..] + [s];
      ConcatSnoc(ss[1..], s);
    }
  }

  /**
   `inefficient_string_concatenation(n)`: a non-`int` argument raises `TypeError`, a
   negative one `ValueError`; otherwise the result is the pieces of `range(n)` joined.
   */
  method InefficientStringConcatenation(n: Value) returns (r: Result<string>)
    ensures !IsInt(n) ==> r == TypeErr("Expected integer, got " + TypeName(n))
    ensures IsInt(n) && AsInt(n) < 0 ==> r == ValueErr("n must be non-negative, got " + IntToString(AsInt(n)))
    ensures IsInt(n) && AsInt(n) >= 0 ==> r == Ok(Concat(Pieces(AsInt(n))))
  {
    if !IsInt(n) {
      return TypeErr("Expected integer, got " + TypeName(n));
    }
    var k := AsInt(n);
    if k < 0 {
      return ValueErr("n must be non-negative, got " + IntToString(k));
    }
    var result := "";
    var i := 0;
    while i < k
      invariant 0 <= i <= k
      invariant result == Concat(Pieces(i))
    {
      ConcatPiecesSnoc(i);
      result := result + IntToString(i) + "-";
      i := i + 1;
    }
    return Ok(result);
  }

  /** `n = 0` gives the empty string; 1 and 3 give the strings the tests pin. */
  lemma SmallResults()
    ensures Concat(Pieces(0)) == ""
    ensures Concat(Pieces(1)) == "0-"
    ensures Concat(Pieces(3)) == "0-1-2-"
  {
    assert IntToString(0) == "0" && IntToString(1) == "1" && IntToString(2) == "2";
    var p1, p3 := Pieces(1), Pieces(3);
    assert p1[0] == IntToString(0) + "-";
    assert p3[0] == IntToString(0) + "-" && p3[1] == IntToString(1) + "-" && p3[2] == IntToString(2) + "-";
    assert "0" + "-" == "0-" && "1" + "-" == "1-" && "2" + "-" == "2-";
    assert p1 == ["0-"];
    assert p3 == ["0-", "1-", "2-"];
    assert Concat(["2-"]) == "2-";
    assert Concat(["1-", "2-"]) == "1-2-";
  }

  /** The result for `n + 1` is the result for `n` followed by the piece of `n`. */
  lemma ConcatPiecesSnoc(n: nat)
    ensures Concat(Pieces(n + 1)) == Concat(Pieces(n)) + (IntToString(n) + "-")
  {
    assert Pieces(n + 1) == Pieces(n) + [IntToString(n) + "-"];
    ConcatSnoc(Pieces(n), IntToString(n) + "-");
  }

  lemma CountDashesAppend(a: string, b: string)
    ensures CountDashes(a + b) == CountDashes(a) + CountDashes(b)
  {
    assert multiset(a + b) == multiset(a) + multiset(b);
  }

  /** The result holds exactly `n` dashes: the digits of a natural number hold none. */
  lemma {:induction false} DashCount(n: nat)
    ensures CountDashes(Concat(Pieces(n))) == n
  {
    if n > 0 {
      DashCount(n - 1);
      var w := IntToString(n - 1);
      ConcatPiecesSnoc(n - 1);
      CountDashesAppend(Concat(Pieces(n - 1)), w + "-");
      CountDashesAppend(w, "-");
      NatToStringCanonical(n - 1);
      assert CountDashes(w) == 0;
      assert CountDashes("-") == 1;
    }
  }

  /** A dash-free word followed by a dash splits off as one part. */
  lemma {:induction false} SplitWord(w: string, rest: string)
    requires '-' !in w
    ensures SplitOnDash(w + "-" + rest) == [w] + SplitOnDash(rest)
    decreases |w|
  {
    var s := w + "-" + rest;
    if |w| == 0 {
      assert s[1..] == rest;
    } else {
      assert s[1..] == w[1..] + "-" + rest;
      SplitWord(w[1..], rest);
      assert [w[0]] + w[1..] == w;
    }
  }

  /** Joining dash-free words, each followed by a dash, and splitting at the dashes gives the words and a final empty part. */
  lemma {:induction false} SplitJoined(ws: seq<string>)
    requires forall i :: 0 <= i < |ws| ==> '-' !in ws[i]
    ensures SplitOnDash(Concat(seq(|ws|, i requires 0 <= i < |ws| => ws[i] + "-"))) == ws + [""]
    decreases |ws|
  {
    var pcs := seq(|ws|, i requires 0 <= i < |ws| => ws[i] + "-");
    if |ws| == 0 {
      assert pcs == [];
    } else {
      var tail := seq(|ws[1..]|, i requires 0 <= i < |ws[1..]| => ws[1..][i] + "-");
      assert pcs[1..] == tail;
      SplitJoined(ws[1..]);
      SplitWord(ws[0], Concat(tail));
      assert ws == [ws[0]] + ws[1..];
    }
  }

  /**
   The inverse of the builder: the result of `n` splits at its dashes into exactly
   `n + 1` parts, the `i`-th of which reads back as `i`, and the last of which is empty.
   */
  lemma DecodeConcatenation(n: nat)
    ensures |SplitOnDash(Concat(Pieces(n)))| == n + 1
    ensures SplitOnDash(Concat(Pieces(n)))[n] == ""
    ensures forall i :: 0 <= i < n ==>
              AllDigits(SplitOnDash(Concat(Pieces(n)))[i]) && ParseDecimal(SplitOnDash(Concat(Pieces(n)))[i]) == i
  {
    var ws := seq(n, i requires 0 <= i < n => IntToString(i));
    forall i | 0 <= i < n
      ensures '-' !in ws[i] && AllDigits(ws[i]) && ParseDecimal(ws[i]) == i
    {
      NatToStringCanonical(i);
      ParseNatToString(i);
    }
    assert Pieces(n) == seq(|ws|, i requires 0 <= i < |ws| => ws[i] + "-");
    SplitJoined(ws);
  }
}
