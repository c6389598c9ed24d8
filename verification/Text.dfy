/** UTF-16 text as the source's language holds it: a sequence of code units, compared unit by unit. */
module Text {
  type Unit = x: int | 0 <= x < 0x1_0000
  type Text = seq<Unit>

  /** The `<` of the source language on strings: lexicographic on code units. */
  predicate Less(a: Text, b: Text) {
    b != [] && (a == [] || a[0] < b[0] || (a[0] == b[0] && Less(a[1..], b[1..])))
  }

  lemma {:induction false} LessIsStrictTotal(a: Text, b: Text)
    ensures a == b ==> !Less(a, b)
    ensures Less(a, b) ==> !Less(b, a)
    ensures a == b || Less(a, b) || Less(b, a)
  {
    if a != [] && b != [] {
      LessIsStrictTotal(a[1..], b[1..]);
      if a[0] == b[0] && a[1..] == b[1..] {
        assert a == [a[0]] + a[1..] && b == [b[0]] + b[1..];
      }
    }
  }

  lemma {:induction false} LessIsTransitive(a: Text, b: Text, c: Text)
    requires Less(a, b) && Less(b, c)
    ensures Less(a, c)
  {
    if a != [] && a[0] == b[0] == c[0] {
      LessIsTransitive(a[1..], b[1..], c[1..]);
    }
  }

  /** White space and line terminators, by code. */
  predicate IsSpace(code: int) {
    9 <= code <= 13 || code == 0x20 || code == 0xA0 || code == 0x1680 || 0x2000 <= code <= 0x200A
    || code == 0x2028 || code == 0x2029 || code == 0x202F || code == 0x205F || code == 0x3000 || code == 0xFEFF
  }

  function TrimStart(t: Text): Text {
    if t != [] && IsSpace(t[0]) then TrimStart(t[1..]) else t
  }

  function TrimEnd(t: Text): Text {
    if t != [] && IsSpace(t[|t| - 1]) then TrimEnd(t[..|t| - 1]) else t
  }

  function Trim(t: Text): Text {
    TrimEnd(TrimStart(t))
  }

  lemma {:induction false} TrimEndKeepsStart(t: Text)
    ensures TrimEnd(t) != [] ==> t != [] && TrimEnd(t)[0] == t[0]
    ensures TrimEnd(TrimEnd(t)) == TrimEnd(t)
  {
    if t != [] && IsSpace(t[|t| - 1]) {
      TrimEndKeepsStart(t[..|t| - 1]);
    }
  }

  lemma {:induction false} TrimStartTrims(t: Text)
    ensures TrimStart(t) == [] || !IsSpace(TrimStart(t)[0])
  {
    if t != [] && IsSpace(t[0]) {
      TrimStartTrims(t[1..]);
    }
  }

  /** Trimming twice is trimming once. */
  lemma TrimIsIdempotent(t: Text)
    ensures Trim(Trim(t)) == Trim(t)
  {
    TrimStartTrims(t);
    TrimEndKeepsStart(TrimStart(t));
    assert TrimStart(Trim(t)) == Trim(t);
  }

  /** Trimming takes the white space off both ends, and nothing else. */
  lemma TrimIs(t: Text) returns (from: nat, to: nat)
    ensures from <= to <= |t| && Trim(t) == t[from..to]
    ensures (forall i :: 0 <= i < from ==> IsSpace(t[i])) && (forall i :: to <= i < |t| ==> IsSpace(t[i]))
    ensures from < to ==> !IsSpace(t[from]) && !IsSpace(t[to - 1])
  {
    from := TrimStartIs(t);
    var n := TrimEndIs(TrimStart(t));
    to := from + n;
    assert forall i :: to <= i < |t| ==> t[i] == TrimStart(t)[i - from];
  }

  lemma {:induction false} TrimStartIs(t: Text) returns (from: nat)
    ensures from <= |t| && TrimStart(t) == t[from..] && (forall i :: 0 <= i < from ==> IsSpace(t[i]))
    ensures from < |t| ==> !IsSpace(t[from])
  {
    from := 0;
    if t != [] && IsSpace(t[0]) {
      var rest := TrimStartIs(t[1..]);
      from := rest + 1;
      assert forall i :: 1 <= i < from ==> t[i] == t[1..][i - 1];
    }
  }

  lemma {:induction false} TrimEndIs(t: Text) returns (to: nat)
    ensures to <= |t| && TrimEnd(t) == t[..to] && (forall i :: to <= i < |t| ==> IsSpace(t[i]))
    ensures 0 < to ==> !IsSpace(t[to - 1])
  {
    to := |t|;
    if t != [] && IsSpace(t[|t| - 1]) {
      to := TrimEndIs(t[..|t| - 1]);
    }
  }
}
