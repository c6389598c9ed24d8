/** The paths a package archive may use: what path.posix.normalize leaves alone, inside the package. */
module TarPaths {
  type byte = x: int | 0 <= x < 256
  type Bytes = seq<byte>

  const SLASH: byte := 0x2F
  const DOT: byte := 0x2E
  const BACKSLASH: byte := 0x5C
  const NODE_MODULES: Bytes := [0x6E, 0x6F, 0x64, 0x65, 0x5F, 0x6D, 0x6F, 0x64, 0x75, 0x6C, 0x65, 0x73]

  const HERE: Bytes := [DOT]
  const UP: Bytes := [DOT, DOT]

  predicate StartsWith(s: Bytes, prefix: Bytes) {
    |prefix| <= |s| && s[..|prefix|] == prefix
  }

  // ---------------------------------------------------------------- segments

  /** The text between the slashes: one more segment than there are slashes. */
  function Split(p: Bytes): (segments: seq<Bytes>)
    ensures segments != []
  {
    if p == [] then [[]]
    else
      var rest := Split(p[1..]);
      if p[0] == SLASH then [[]] + rest else [[p[0]] + rest[0]] + rest[1..]
  }

  function Join(segments: seq<Bytes>): Bytes {
    if segments == [] then []
    else if |segments| == 1 then segments[0]
    else segments[0] + [SLASH] + Join(segments[1..])
  }

  /** The segments that remain of `segments` after `stack`, without empty ones and dots, each ".." undone. */
  function Resolve(segments: seq<Bytes>, stack: seq<Bytes>, aboveRoot: bool): seq<Bytes>
    decreases |segments|
  {
    if segments == [] then stack
    else
      var (s, rest) := (segments[0], segments[1..]);
      if s == [] || s == HERE then Resolve(rest, stack, aboveRoot)
      else if s != UP then Resolve(rest, stack + [s], aboveRoot)
      else if stack != [] && stack[|stack| - 1] != UP then Resolve(rest, stack[..|stack| - 1], aboveRoot)
      else if aboveRoot then Resolve(rest, stack + [s], aboveRoot)
      else Resolve(rest, stack, aboveRoot)
  }

  /** path.posix.normalize. */
  function Normalize(p: Bytes): Bytes {
    if p == [] then HERE
    else
      var absolute, trailing := p[0] == SLASH, p[|p| - 1] == SLASH;
      var body := Join(Resolve(Split(p), [], !absolute));
      if body == [] then (if absolute then [SLASH] else if trailing then HERE + [SLASH] else HERE)
      else (if absolute then [SLASH] else []) + body + (if trailing then [SLASH] else [])
  }

  predicate Accepted(relative: Bytes) {
    && relative != []
    && BACKSLASH !in relative
    && Normalize(relative) == relative
    && relative != UP
    && !StartsWith(relative, UP + [SLASH])
    && relative != NODE_MODULES
    && !StartsWith(relative, NODE_MODULES + [SLASH])
  }

  // ---------------------------------------------------------------- what accepted paths look like

  ghost predicate NoSlash(segments: seq<Bytes>) {
    forall i :: 0 <= i < |segments| ==> SLASH !in segments[i]
  }

  /** Neither empty nor a dot, and ".." only before every other segment, or nowhere below a root. */
  ghost predicate Resolved(stack: seq<Bytes>, aboveRoot: bool) {
    && NoSlash(stack)
    && (forall i :: 0 <= i < |stack| ==> stack[i] != [] && stack[i] != HERE)
    && (forall i, j :: 0 <= i < j < |stack| && stack[j] == UP ==> stack[i] == UP)
    && (!aboveRoot ==> forall i :: 0 <= i < |stack| ==> stack[i] != UP)
  }

  lemma {:induction false} SplitHasNoSlash(p: Bytes)
    ensures NoSlash(Split(p))
  {
    if p != [] {
      SplitHasNoSlash(p[1..]);
    }
  }

  lemma {:induction false} ResolveResolves(segments: seq<Bytes>, stack: seq<Bytes>, aboveRoot: bool)
    requires NoSlash(segments) && Resolved(stack, aboveRoot)
    ensures Resolved(Resolve(segments, stack, aboveRoot), aboveRoot)
    decreases |segments|
  {
    if segments != [] {
      var (s, rest) := (segments[0], segments[1..]);
      if s == [] || s == HERE {
        ResolveResolves(rest, stack, aboveRoot);
      } else if s != UP {
        ResolveResolves(rest, stack + [s], aboveRoot);
      } else if stack != [] && stack[|stack| - 1] != UP {
        ResolveResolves(rest, stack[..|stack| - 1], aboveRoot);
      } else if aboveRoot {
        ResolveResolves(rest, stack + [s], aboveRoot);
      } else {
        ResolveResolves(rest, stack, aboveRoot);
      }
    }
  }

  lemma {:induction false} SplitAfterSlash(a: Bytes, b: Bytes)
    requires SLASH !in a
    ensures Split(a + [SLASH] + b) == [a] + Split(b)
  {
    if a == [] {
      assert a + [SLASH] + b == [SLASH] + b && ([SLASH] + b)[1..] == b;
    } else {
      SplitAfterSlash(a[1..], b);
      assert (a + [SLASH] + b)[1..] == a[1..] + [SLASH] + b;
      assert [a[0]] + a[1..] == a;
    }
  }

  lemma {:induction false} SplitPlain(a: Bytes)
    requires SLASH !in a
    ensures Split(a) == [a]
  {
    if a != [] {
      SplitPlain(a[1..]);
      assert [a[0]] + a[1..] == a;
    }
  }

  /** Splitting undoes joining. */
  lemma {:induction false} SplitJoined(segments: seq<Bytes>)
    requires segments != [] && NoSlash(segments)
    ensures Split(Join(segments)) == segments
  {
    if |segments| == 1 {
      SplitPlain(segments[0]);
    } else {
      SplitJoined(segments[1..]);
      SplitAfterSlash(segments[0], Join(segments[1..]));
      assert [segments[0]] + segments[1..] == segments;
    }
  }

  lemma {:induction false} JoinAfter(segments: seq<Bytes>, last: Bytes)
    requires segments != []
    ensures Join(segments + [last]) == Join(segments) + [SLASH] + last
  {
    if |segments| == 1 {
      assert (segments + [last])[1..] == [last];
    } else {
      JoinAfter(segments[1..], last);
      assert (segments + [last])[1..] == segments[1..] + [last];
    }
  }

  function Optional(present: bool, segment: Bytes): seq<Bytes> {
    if present then [segment] else []
  }

  function Framed(stack: seq<Bytes>, absolute: bool, trailing: bool): Bytes {
    (if absolute then [SLASH] else []) + Join(stack) + (if trailing then [SLASH] else [])
  }

  lemma SplitFramed(stack: seq<Bytes>, absolute: bool, trailing: bool)
    requires stack != [] && NoSlash(stack)
    ensures Split(Framed(stack, absolute, trailing)) == Optional(absolute, []) + stack + Optional(trailing, [])
  {
    var body := Join(stack) + (if trailing then [SLASH] else []);
    SplitTrailing(stack, trailing);
    hide Split, Join, NoSlash;
    if absolute {
      SplitAfterSlash([], body);
      assert [] + [SLASH] + body == Framed(stack, absolute, trailing);
    } else {
      assert body == Framed(stack, absolute, trailing);
    }
  }

  lemma SplitTrailing(stack: seq<Bytes>, trailing: bool)
    requires stack != [] && NoSlash(stack)
    ensures Split(Join(stack) + (if trailing then [SLASH] else [])) == stack + Optional(trailing, [])
  {
    hide Split, Join;
    var inner := stack + Optional(trailing, []);
    SplitJoined(inner);
    if trailing {
      JoinAfter(stack, []);
      assert Join(stack) + [SLASH] + [] == Join(stack) + [SLASH];
    } else {
      assert inner == stack && Join(stack) + [] == Join(stack);
    }
  }

  /** A path that normalization leaves alone, segment by segment. */
  lemma NormalSegments(p: Bytes)
    requires p != [] && Normalize(p) == p
    requires Join(Resolve(Split(p), [], p[0] != SLASH)) != []
    ensures var stack := Resolve(Split(p), [], p[0] != SLASH);
            && Resolved(stack, p[0] != SLASH)
            && Split(p) == Optional(p[0] == SLASH, []) + stack + Optional(p[|p| - 1] == SLASH, [])
  {
    var stack := Resolve(Split(p), [], p[0] != SLASH);
    SplitHasNoSlash(p);
    ResolveResolves(Split(p), [], p[0] != SLASH);
    assert Framed(stack, p[0] == SLASH, p[|p| - 1] == SLASH) == p;
    hide Resolve, Split, Join, Normalize;
    SplitFramed(stack, p[0] == SLASH, p[|p| - 1] == SLASH);
  }

  /** One or more segments, none of them empty, "." or "..". */
  ghost predicate Plain(stack: seq<Bytes>) {
    && stack != [] && NoSlash(stack)
    && forall i :: 0 <= i < |stack| ==> stack[i] != [] && stack[i] != HERE && stack[i] != UP
  }

  /** The path names something: plain segments, perhaps after a first slash and before a last one. */
  ghost predicate PlainPath(p: Bytes) {
    exists stack, absolute, trailing :: Plain(stack) && p == Framed(stack, absolute, trailing)
  }

  lemma {:induction false} ResolvePlain(segments: seq<Bytes>, stack: seq<Bytes>, aboveRoot: bool, trailing: bool)
    requires forall i :: 0 <= i < |segments| ==> segments[i] != [] && segments[i] != HERE && segments[i] != UP
    ensures Resolve(segments + Optional(trailing, []), stack, aboveRoot) == stack + segments
    decreases |segments|
  {
    var all := segments + Optional(trailing, []);
    if segments == [] {
      assert all == Optional(trailing, []);
    } else {
      assert all[1..] == segments[1..] + Optional(trailing, []);
      ResolvePlain(segments[1..], stack + [segments[0]], aboveRoot, trailing);
    }
  }

  /** Plain paths are left alone by normalization. */
  lemma PlainIsNormal(stack: seq<Bytes>, absolute: bool, trailing: bool)
    requires Plain(stack)
    ensures var p := Framed(stack, absolute, trailing);
            p != [] && p[0] == (if absolute then SLASH else stack[0][0]) && Normalize(p) == p
  {
    var p := Framed(stack, absolute, trailing);
    assert Join(stack) != [] && Join(stack)[0] == stack[0][0] by {
      hide Resolve;
    }
    assert stack[0][0] != SLASH;
    JoinEnds(stack);
    SplitFramed(stack, absolute, trailing);
    ResolvePlain(stack, [], !absolute, trailing);
    assert [] + stack == stack;
    if absolute {
      assert Split(p) == [[]] + (stack + Optional(trailing, []));
    } else {
      assert Split(p) == stack + Optional(trailing, []);
    }
  }

  lemma {:induction false} JoinEnds(stack: seq<Bytes>)
    requires Plain(stack)
    ensures Join(stack) != [] && Join(stack)[|Join(stack)| - 1] != SLASH
  {
    if |stack| > 1 {
      JoinEnds(stack[1..]);
    } else {
      assert stack[0][|stack[0]| - 1] in stack[0];
    }
  }

  /**
   Exactly which paths are accepted: no backslash, not in node_modules, and "/", "." or "./" or plain
   segments without any "..".
   */
  lemma AcceptedIff(p: Bytes)
    ensures Accepted(p) <==>
              && BACKSLASH !in p && p != NODE_MODULES && !StartsWith(p, NODE_MODULES + [SLASH])
              && (p == [SLASH] || p == HERE || p == HERE + [SLASH] || PlainPath(p))
  {
    DotsAlone();
    hide NODE_MODULES;
    if p == [SLASH] || p == HERE || p == HERE + [SLASH] {
      DotsAreNormal();
    } else if PlainPath(p) {
      var stack, absolute, trailing :| Plain(stack) && p == Framed(stack, absolute, trailing);
      PlainIsNormal(stack, absolute, trailing);
      PlainIsNotUp(stack, absolute, trailing);
    } else if Accepted(p) {
      AcceptedIsPlain(p);
    }
  }

  lemma DotsAreNormal()
    ensures Normalize([SLASH]) == [SLASH] && Normalize(HERE) == HERE && Normalize(HERE + [SLASH]) == HERE + [SLASH]
  {
    DotsAlone();
    assert Resolve([[], []], [], false) == [];
    assert Resolve([HERE], [], true) == [];
    assert Resolve([HERE, []], [], true) == [];
  }

  lemma PlainIsNotUp(stack: seq<Bytes>, absolute: bool, trailing: bool)
    requires Plain(stack)
    ensures var p := Framed(stack, absolute, trailing); p != UP && !StartsWith(p, UP + [SLASH])
  {
    var p := Framed(stack, absolute, trailing);
    SplitFramed(stack, absolute, trailing);
    SplitPlain(UP);
    if StartsWith(p, UP + [SLASH]) {
      assert p == UP + [SLASH] + p[3..];
      SplitAfterSlash(UP, p[3..]);
    }
    assert Split(p)[0] == if absolute then [] else stack[0];
  }

  lemma AcceptedIsPlain(p: Bytes)
    requires Accepted(p) && p != [SLASH] && p != HERE && p != HERE + [SLASH]
    ensures PlainPath(p)
  {
    NormalSegments(p);
    var stack := Resolve(Split(p), [], p[0] != SLASH);
    assert p == Framed(stack, p[0] == SLASH, p[|p| - 1] == SLASH);
    hide Resolve, Normalize, Accepted, Split, Framed;
    if i :| 0 <= i < |stack| && stack[i] == UP {
      assert stack[0] == UP && p[0] != SLASH;
      StartsUp(p, stack);
    }
    assert Plain(stack);
  }

  lemma DotsAlone()
    ensures Split([SLASH]) == [[], []] && Split(HERE) == [HERE] && Split(HERE + [SLASH]) == [HERE, []]
  {
    SplitAfterSlash([], []);
    SplitAfterSlash(HERE, []);
    SplitPlain(HERE);
    assert [] + [SLASH] + [] == [SLASH] && HERE + [SLASH] + [] == HERE + [SLASH];
  }

  lemma {:induction false} JoinSplit(p: Bytes)
    ensures Join(Split(p)) == p
  {
    if p != [] {
      JoinSplit(p[1..]);
      var rest := Split(p[1..]);
      if p[0] != SLASH && |rest| > 1 {
        assert ([[p[0]] + rest[0]] + rest[1..])[1..] == rest[1..];
      }
    }
  }

  /** A path whose first segment is ".." is ".." or starts with "../". */
  lemma StartsUp(p: Bytes, stack: seq<Bytes>)
    requires Split(p)[0] == UP
    ensures p == UP || StartsWith(p, UP + [SLASH])
  {
    JoinSplit(p);
    if |Split(p)| > 1 {
      assert p == UP + [SLASH] + Join(Split(p)[1..]);
    }
  }
}
