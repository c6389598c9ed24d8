/**
 A writer of the ustar interchange format (pax utility, IEEE Std 1003.1): header blocks with name,
 size, type and prefix, contents padded to whole blocks, and two zero blocks at the end. What it
 writes, the walks read back.
 */
module TarWriter {
  import opened Wrappers
  import opened TarPaths
  import opened Tar

  /**
   An entry to write. The walks do not look at the fields between name and size (mode, owner),
   between size and type (time, checksum) and between type and prefix (link, magic, names, device).
   */
  datatype Member = Member(
    name: Bytes, prefix: Bytes, kind: byte, content: Bytes,
    owner: Bytes, times: Bytes, links: Bytes, terminator: byte)

  ghost predicate Writable(m: Member) {
    && 0 < |m.name| <= 100 && |m.prefix| <= 155 && 0 !in m.name && 0 !in m.prefix
    && |m.content| < 0x2_0000_0000
    && |m.owner| == 24 && |m.times| == 20 && |m.links| == 188
    && (m.terminator == 0 || m.terminator == 0x20)
  }

  function Zeros(n: nat): Bytes {
    seq(n, _ => 0)
  }

  function Octal(n: nat, width: nat): Bytes {
    if width == 0 then [] else Octal(n / 8, width - 1) + [0x30 + n % 8]
  }

  function Field(text: Bytes, width: nat): Bytes
    requires |text| <= width
  {
    text + Zeros(width - |text|)
  }

  function PathOf(m: Member): Bytes {
    if m.prefix == [] then m.name else m.prefix + [SLASH] + m.name
  }

  function HeaderOf(m: Member): Bytes
    requires |m.name| <= 100 && |m.prefix| <= 155
  {
    Field(m.name, 100) + m.owner + (Octal(|m.content|, 11) + [m.terminator]) + m.times + [m.kind] + m.links
    + Field(m.prefix, 155) + Zeros(12)
  }

  function Written(m: Member): Bytes
    requires |m.name| <= 100 && |m.prefix| <= 155
  {
    HeaderOf(m) + m.content + Zeros(Padded(|m.content|) - |m.content|)
  }

  ghost predicate AllWritable(members: seq<Member>) {
    forall i :: 0 <= i < |members| ==> Writable(members[i])
  }

  /** The archive of the members: their blocks, two zero blocks, and whatever the writer adds after them. */
  function Archive(members: seq<Member>, tail: Bytes): Bytes
    requires forall i :: 0 <= i < |members| ==> |members[i].name| <= 100 && |members[i].prefix| <= 155
  {
    if members == [] then Zeros(2 * BLOCK) + tail else Written(members[0]) + Archive(members[1..], tail)
  }

  // ---------------------------------------------------------------- fields

  lemma {:induction false} OctalDigits(n: nat, width: nat)
    ensures |Octal(n, width)| == width && forall i :: 0 <= i < width ==> IsOctal(Octal(n, width)[i])
  {
    if width > 0 {
      OctalDigits(n / 8, width - 1);
    }
  }

  function Power8(width: nat): nat {
    if width == 0 then 1 else 8 * Power8(width - 1)
  }

  lemma {:induction false} OctalReadsBack(n: nat, width: nat)
    requires n < Power8(width)
    ensures |Octal(n, width)| == width && (forall i :: 0 <= i < width ==> IsOctal(Octal(n, width)[i]))
    ensures OctalValue(Octal(n, width)) == n
  {
    OctalDigits(n, width);
    if width > 0 {
      OctalReadsBack(n / 8, width - 1);
      assert Octal(n, width)[..width - 1] == Octal(n / 8, width - 1);
    }
  }

  lemma {:induction false} SpanOfDigits(digits: Bytes, rest: Bytes)
    requires forall i :: 0 <= i < |digits| ==> IsOctal(digits[i])
    requires rest == [] || !IsOctal(rest[0])
    ensures OctalSpan(digits + rest) == |digits|
  {
    if digits == [] {
      assert digits + rest == rest;
    } else {
      assert (digits + rest)[1..] == digits[1..] + rest;
      SpanOfDigits(digits[1..], rest);
    }
  }

  /** A field that holds `text`, closed by a zero when it is shorter than the field. */
  lemma FieldReadsBack(header: Bytes, offset: nat, length: nat, text: Bytes)
    requires offset + length <= |header| && |text| <= length && 0 !in text
    requires header[offset..offset + |text|] == text
    requires |text| < length ==> header[offset + |text|] == 0
    ensures ReadText(header, offset, length) == text
  {
    assert forall i :: 0 <= i < |text| ==> header[offset + i] == text[i] && text[i] in text;
    var end := IndexOfZero(header, offset);
    assert end.Some? ==> end.value >= offset + |text|;
  }

  /** Where the fields of a written header are. */
  lemma HeaderLayout(m: Member)
    requires Writable(m)
    ensures var h := HeaderOf(m);
            && |h| == BLOCK
            && h[0..100] == Field(m.name, 100)
            && h[124..136] == Octal(|m.content|, 11) + [m.terminator]
            && h[156] == m.kind
            && h[345..500] == Field(m.prefix, 155)
  {
    OctalDigits(|m.content|, 11);
  }

  lemma NameReadsBack(m: Member)
    requires Writable(m)
    ensures |HeaderOf(m)| == BLOCK
    ensures ReadPath(HeaderOf(m)) == PathOf(m)
    ensures !AllZero(HeaderOf(m))
  {
    HeaderLayout(m);
    var h := HeaderOf(m);
    hide HeaderOf;
    TextField(h, 0, 100, m.name);
    TextField(h, 345, 155, m.prefix);
    assert h[0] == h[0..100][0] == m.name[0] && m.name[0] in m.name;
  }

  lemma TextField(h: Bytes, offset: nat, length: nat, text: Bytes)
    requires offset + length <= |h| && |text| <= length && 0 !in text && h[offset..offset + length] == Field(text, length)
    ensures ReadText(h, offset, length) == text
  {
    var field := h[offset..offset + length];
    assert h[offset..offset + |text|] == field[..|text|];
    if |text| < length {
      assert h[offset + |text|] == field[|text|];
    }
    FieldReadsBack(h, offset, length, text);
  }

  lemma SizeReadsBack(m: Member)
    requires Writable(m)
    ensures |HeaderOf(m)| == BLOCK && ReadSize(HeaderOf(m)) == Some(|m.content|)
  {
    HeaderLayout(m);
    var h := HeaderOf(m);
    hide HeaderOf;
    var digits := Octal(|m.content|, 11);
    assert Power8(11) == 0x2_0000_0000;
    OctalReadsBack(|m.content|, 11);
    var field := h[124..136];
    assert field == digits + [m.terminator];
    assert 0 !in digits by {
      assert forall i :: 0 <= i < |digits| ==> IsOctal(digits[i]);
    }
    assert h[124..124 + 11] == field[..11] && h[135] == field[11];
    var rest := if m.terminator == 0 then [] else [m.terminator];
    if m.terminator == 0 {
      FieldReadsBack(h, 124, 12, digits);
      assert digits + rest == digits;
    } else {
      FieldReadsBack(h, 124, 12, field);
    }
    assert ReadText(h, 124, 12) == digits + rest;
    NumeralReadsBack(digits, rest);
  }

  lemma NumeralReadsBack(digits: Bytes, rest: Bytes)
    requires digits != [] && (forall i :: 0 <= i < |digits| ==> IsOctal(digits[i]))
    requires rest == [] || !IsOctal(rest[0])
    ensures ParseOctal(digits + rest) == Some(OctalValue(digits))
  {
    hide SpaceLength, OctalSpan, OctalValue;
    var text := digits + rest;
    assert IsOctal(text[0]);
    SpanOfDigits(digits, rest);
    NoSpaceBefore(text);
    assert text[..|digits|] == digits;
  }

  /** A numeral may have spaces and a sign before it: they are skipped, and the sign counts. */
  lemma SignedNumeralReadsBack(spaces: Bytes, sign: Bytes, digits: Bytes, rest: Bytes)
    requires forall i :: 0 <= i < |spaces| ==> spaces[i] == 0x20
    requires sign in {[], [0x2B], [0x2D]}
    requires digits != [] && (forall i :: 0 <= i < |digits| ==> IsOctal(digits[i]))
    requires rest == [] || !IsOctal(rest[0])
    ensures var value: int := OctalValue(digits);
            ParseOctal(spaces + (sign + (digits + rest))) == Some(if sign == [0x2D] then 0 - value else value)
  {
    hide ParseOctal, OctalValue;
    var (numeral, text) := (digits + rest, sign + (digits + rest));
    assert IsOctal(numeral[0]);
    if sign == [] {
      assert text == numeral;
    } else {
      assert text[0] == sign[0] && text[1..] == numeral;
    }
    NoSpaceAtNumeral(text);
    SpacesAreSkipped(spaces, text);
    ParsedAfterSpace(spaces + text, text, sign, digits, rest);
  }

  lemma ParsedAfterSpace(all: Bytes, text: Bytes, sign: Bytes, digits: Bytes, rest: Bytes)
    requires SkipSpace(all) == text && sign in {[], [0x2B], [0x2D]}
    requires digits != [] && (forall i :: 0 <= i < |digits| ==> IsOctal(digits[i])) && (rest == [] || !IsOctal(rest[0]))
    requires if sign == [] then text == digits + rest else text != [] && text[0] == sign[0] && text[1..] == digits + rest
    ensures var value: int := OctalValue(digits); ParseOctal(all) == Some(if sign == [0x2D] then 0 - value else value)
  {
    hide OctalSpan, OctalValue, SkipSpace;
    SpanOfDigits(digits, rest);
    assert (digits + rest)[..|digits|] == digits && (digits + rest)[0] == digits[0];
  }

  /** Without a digit there is no number. */
  lemma NoNumeral(spaces: Bytes, rest: Bytes)
    requires forall i :: 0 <= i < |spaces| ==> spaces[i] == 0x20
    requires rest == [] || (0x21 <= rest[0] <= 0x7E && !IsOctal(rest[0]) && rest[0] != 0x2B && rest[0] != 0x2D)
    ensures ParseOctal(spaces + rest).None?
  {
    hide SpaceLength, SkipSpace;
    NoSpaceAtNumeral(rest);
    SpacesAreSkipped(spaces, rest);
  }

  lemma NoSpaceAtNumeral(text: Bytes)
    requires text == [] || 0x21 <= text[0] <= 0x7E
    ensures SpaceLength(text) == 0
  {
    forall prefix: Bytes | prefix != [] && StartsWith(text, prefix) ensures text != [] && prefix[0] == text[0] {
      assert text[..|prefix|][0] == text[0];
    }
    hide StartsWith;
  }

  lemma {:induction false} SpacesAreSkipped(spaces: Bytes, text: Bytes)
    requires (forall i :: 0 <= i < |spaces| ==> spaces[i] == 0x20) && SpaceLength(text) == 0
    ensures SkipSpace(spaces + text) == text
  {
    if spaces == [] {
      assert spaces + text == text;
    } else {
      assert (spaces + text)[1..] == spaces[1..] + text;
      SpacesAreSkipped(spaces[1..], text);
    }
  }

  lemma NoSpaceBefore(text: Bytes)
    requires text != [] && IsOctal(text[0])
    ensures SpaceLength(text) == 0
  {
    forall prefix: Bytes | prefix != [] && StartsWith(text, prefix) ensures prefix[0] == text[0] {
      assert text[..|prefix|][0] == text[0];
    }
    hide StartsWith;
  }

  // ---------------------------------------------------------------- whole archives

  /** The entry the walks find for a member written at `offset`. */
  function EntryOf(m: Member, offset: nat): Entry {
    Entry(PathOf(m), m.kind, offset + BLOCK, offset + BLOCK + |m.content|)
  }

  function EntriesOf(members: seq<Member>, offset: nat): seq<Entry> {
    if members == [] then []
    else
      var entry := EntryOf(members[0], offset);
      [entry] + EntriesOf(members[1..], Next(entry))
  }

  lemma WrittenLength(m: Member)
    requires Writable(m)
    ensures |HeaderOf(m)| == BLOCK && |Written(m)| == BLOCK + Padded(|m.content|)
  {
    HeaderLayout(m);
  }

  /** The entry describes the member, and holds its content. */
  ghost predicate Describes(archive: Bytes, e: Entry, m: Member) {
    && e.start <= e.end <= |archive|
    && e.kind == m.kind && e.path == PathOf(m) && Content(archive, e) == m.content
  }

  /** The walk at the start of a written member. */
  lemma MemberAt(archive: Bytes, offset: nat, m: Member, rest: Bytes)
    requires Writable(m) && offset <= |archive| && archive[offset..] == Written(m) + rest
    ensures !Ended(archive, offset) && EntryAt(archive, offset) == Ok(EntryOf(m, offset))
    ensures Describes(archive, EntryOf(m, offset), m)
    ensures var next := Next(EntryOf(m, offset)); next <= |archive| && archive[next..] == rest
  {
    WrittenLength(m);
    hide HeaderOf, Zeros, Padded, Writable, PathOf;
    var padding := Zeros(Padded(|m.content|) - |m.content|);
    assert Written(m) == HeaderOf(m) + m.content + padding;
    Parts(archive, offset, HeaderOf(m), m.content, padding, rest);
    EntryIs(archive, offset, m);
    hide Written, EntryAt, Ended;
  }

  lemma KindReadsBack(m: Member)
    requires Writable(m)
    ensures |HeaderOf(m)| == BLOCK && HeaderOf(m)[156] == m.kind
  {
    HeaderLayout(m);
  }

  lemma EntryIs(archive: Bytes, offset: nat, m: Member)
    requires Writable(m) && offset + BLOCK + |m.content| <= |archive|
    requires archive[offset..offset + BLOCK] == HeaderOf(m)
    ensures !Ended(archive, offset) && EntryAt(archive, offset) == Ok(EntryOf(m, offset))
  {
    hide HeaderOf, ReadPath, ReadSize, AllZero, PathOf, EntryAt, Ended;
    NameReadsBack(m);
    SizeReadsBack(m);
    KindReadsBack(m);
    hide Writable;
    HeaderIsRead(archive, offset, HeaderOf(m), |m.content|);
  }

  lemma HeaderIsRead(archive: Bytes, offset: nat, header: Bytes, size: nat)
    requires |header| == BLOCK && offset + BLOCK + size <= |archive| && archive[offset..offset + BLOCK] == header
    requires !AllZero(header) && ReadSize(header) == Some(size)
    ensures !Ended(archive, offset)
    ensures EntryAt(archive, offset) == Ok(Entry(ReadPath(header), header[156], offset + BLOCK, offset + BLOCK + size))
  {
    hide ReadPath, ReadSize, AllZero;
  }

  lemma Parts(archive: Bytes, offset: nat, a: Bytes, b: Bytes, c: Bytes, rest: Bytes)
    requires offset <= |archive| && archive[offset..] == a + b + c + rest
    ensures offset + |a| + |b| + |c| <= |archive|
    ensures archive[offset..offset + |a|] == a
    ensures archive[offset + |a|..offset + |a| + |b|] == b
    ensures archive[offset + |a + b + c|..] == rest
  {
    var here := archive[offset..];
    assert archive[offset..offset + |a|] == here[..|a|];
    assert archive[offset + |a|..offset + |a| + |b|] == here[|a|..|a| + |b|];
    assert archive[offset + |a + b + c|..] == here[|a + b + c|..];
  }

  /** The walk at the end of a written archive. */
  lemma EndAt(archive: Bytes, offset: nat, tail: Bytes)
    requires offset <= |archive| && archive[offset..] == Zeros(2 * BLOCK) + tail
    ensures Ended(archive, offset)
  {
    assert archive[offset..offset + BLOCK] == archive[offset..][..BLOCK];
  }

  ghost predicate DescribesAll(archive: Bytes, entries: seq<Entry>, members: seq<Member>) {
    && |entries| == |members|
    && (entries != [] ==> Describes(archive, entries[0], members[0]) && DescribesAll(archive, entries[1..], members[1..]))
  }

  lemma EntriesStep(archive: Bytes, offset: nat, entry: Entry, rest: seq<Entry>)
    requires !Ended(archive, offset) && EntryAt(archive, offset) == Ok(entry) && entry.start <= entry.end
    requires EntriesFrom(archive, Next(entry)) == Entries(rest, None)
    ensures EntriesFrom(archive, offset) == Entries([entry] + rest, None)
  {
  }

  lemma DescribesStep(archive: Bytes, entry: Entry, rest: seq<Entry>, members: seq<Member>)
    requires members != [] && Describes(archive, entry, members[0]) && DescribesAll(archive, rest, members[1..])
    ensures DescribesAll(archive, [entry] + rest, members)
  {
    assert ([entry] + rest)[1..] == rest;
  }

  lemma {:induction false} ArchiveReadsBack(archive: Bytes, offset: nat, members: seq<Member>, tail: Bytes)
    requires AllWritable(members) && offset <= |archive| && archive[offset..] == Archive(members, tail)
    ensures EntriesFrom(archive, offset) == Entries(EntriesOf(members, offset), None)
    ensures DescribesAll(archive, EntriesOf(members, offset), members)
    decreases |members|
  {
    if members == [] {
      EndAt(archive, offset, tail);
    } else {
      hide Ended, EntryAt, EntriesFrom, Written, HeaderOf, Next, Padded, PathOf, Describes, DescribesAll;
      var (m, rest) := (members[0], members[1..]);
      assert Writable(m);
      MemberAt(archive, offset, m, Archive(rest, tail));
      var entry := EntryOf(m, offset);
      var entries := EntriesOf(rest, Next(entry));
      ArchiveReadsBack(archive, Next(entry), rest, tail);
      EntriesStep(archive, offset, entry, entries);
      DescribesStep(archive, entry, entries, members);
    }
  }

  /** A member the candidate walk takes: a file with an accepted path inside the package, or a directory. */
  ghost predicate Ordinary(m: Member) {
    || m.kind == DIRECTORY
    || ((m.kind == 0 || m.kind == REGULAR) && StartsWith(PathOf(m), PACKAGE) && Accepted(PathOf(m)[|PACKAGE|..]))
  }

  function FilesOf(members: seq<Member>): seq<File> {
    if members == [] then []
    else
      var (m, rest) := (members[0], FilesOf(members[1..]));
      if (m.kind == 0 || m.kind == REGULAR) && StartsWith(PathOf(m), PACKAGE)
      then [File(PathOf(m)[|PACKAGE|..], m.content)] + rest else rest
  }

  lemma {:induction false} CollectsWritten(archive: Bytes, entries: seq<Entry>, members: seq<Member>)
    requires InBounds(archive, entries) && DescribesAll(archive, entries, members)
    requires forall i :: 0 <= i < |members| ==> Ordinary(members[i])
    ensures Collect(archive, entries, None) == Ok(FilesOf(members))
  {
    if members != [] {
      var rest := FilesOf(members[1..]);
      assert Ordinary(members[0]) && Describes(archive, entries[0], members[0]);
      hide Accepted, StartsWith;
      CollectsWritten(archive, entries[1..], members[1..]);
      assert [] + rest == rest;
    }
  }

  /** Round trip: the candidate walk returns exactly the files that were written, in order. */
  lemma CandidateReadsWritten(members: seq<Member>, tail: Bytes)
    requires AllWritable(members) && forall i :: 0 <= i < |members| ==> Ordinary(members[i])
    ensures Candidate(Archive(members, tail), 0) == Ok(FilesOf(members))
  {
    var archive := Archive(members, tail);
    assert archive[0..] == archive;
    ArchiveReadsBack(archive, 0, members, tail);
    CollectsWritten(archive, EntriesOf(members, 0), members);
  }

  /** The manifest walk returns the content of the first member of that path, whatever its type. */
  lemma ManifestReadsWritten(members: seq<Member>, tail: Bytes, k: nat)
    requires AllWritable(members) && k < |members| && PathOf(members[k]) == MANIFEST_PATH
    requires forall i :: 0 <= i < k ==> PathOf(members[i]) != MANIFEST_PATH
    ensures Manifest(Archive(members, tail), 0) == Ok(members[k].content)
  {
    var archive := Archive(members, tail);
    assert archive[0..] == archive;
    ArchiveReadsBack(archive, 0, members, tail);
    FindsFirst(archive, EntriesOf(members, 0), members, k);
  }

  lemma {:induction false} FindsFirst(archive: Bytes, entries: seq<Entry>, members: seq<Member>, k: nat)
    requires InBounds(archive, entries) && DescribesAll(archive, entries, members)
    requires k < |members| && PathOf(members[k]) == MANIFEST_PATH
    requires forall i :: 0 <= i < k ==> PathOf(members[i]) != MANIFEST_PATH
    ensures Find(archive, entries, None) == Ok(members[k].content)
  {
    if k > 0 {
      FindsFirst(archive, entries[1..], members[1..], k - 1);
    }
  }

  /** A directory with the path of the manifest, before its file and with another content, makes the walks disagree. */
  lemma DirectoryShadowsManifest(directory: Member, file: Member, tail: Bytes)
    requires Writable(directory) && Writable(file) && directory.kind == DIRECTORY && file.kind == REGULAR
    requires PathOf(directory) == MANIFEST_PATH && PathOf(file) == MANIFEST_PATH
    requires directory.content != file.content
    ensures var archive := Archive([directory, file], tail);
            && Manifest(archive, 0) == Ok(directory.content)
            && Candidate(archive, 0) == Ok([File(MANIFEST, file.content)])
            && !Agree(Manifest(archive, 0), FirstManifest(Candidate(archive, 0).value))
  {
    hide MANIFEST, MANIFEST_PATH, PathOf, Archive, Writable, FilesOf, Ordinary, Manifest, Candidate, Agree, FirstManifest;
    var members := [directory, file];
    ManifestReadsWritten(members, tail, 0);
    ShadowedFiles(directory, file);
    CandidateReadsWritten(members, tail);
    FileIsFirstManifest(file.content, directory.content);
  }

  lemma ShadowedFiles(directory: Member, file: Member)
    requires directory.kind == DIRECTORY && file.kind == REGULAR && PathOf(file) == MANIFEST_PATH
    ensures Ordinary(directory) && Ordinary(file) && FilesOf([directory, file]) == [File(MANIFEST, file.content)]
  {
    hide MANIFEST, MANIFEST_PATH, PathOf;
    ManifestPathStarts(PathOf(file));
    ManifestIsAccepted();
    hide Accepted, StartsWith;
    assert [directory, file][1..] == [file] && [file][1..] == [];
    assert FilesOf([file]) == [File(MANIFEST, file.content)];
  }

  lemma FileIsFirstManifest(content: Bytes, other: Bytes)
    requires content != other
    ensures !Agree(Ok(other), FirstManifest([File(MANIFEST, content)]))
  {
    hide MANIFEST;
  }

  /** A directory with the path of the manifest and no file of it: one walk returns bytes, the other collects none. */
  lemma DirectoryPosesAsManifest(directory: Member, tail: Bytes)
    requires Writable(directory) && directory.kind == DIRECTORY && PathOf(directory) == MANIFEST_PATH
    ensures var archive := Archive([directory], tail);
            && Manifest(archive, 0) == Ok(directory.content)
            && Candidate(archive, 0) == Ok([])
            && !Agree(Manifest(archive, 0), FirstManifest(Candidate(archive, 0).value))
  {
    hide MANIFEST, MANIFEST_PATH, PathOf, Archive, Written;
    var members := [directory];
    ManifestReadsWritten(members, tail, 0);
    CandidateReadsWritten(members, tail);
    assert members[1..] == [];
  }

  /** Such members can be written, with any contents. */
  lemma ShadowingMembersExist(content: Bytes, other: Bytes)
    requires |content| < 0x2_0000_0000 && |other| < 0x2_0000_0000
    ensures exists directory, file ::
              && Writable(directory) && Writable(file) && directory.kind == DIRECTORY && file.kind == REGULAR
              && PathOf(directory) == MANIFEST_PATH == PathOf(file) && directory.content == content && file.content == other
  {
    var directory := Member(MANIFEST_PATH, [], DIRECTORY, content, Zeros(24), Zeros(20), Zeros(188), 0);
    var file := directory.(kind := REGULAR, content := other);
    assert forall i :: 0 <= i < |MANIFEST_PATH| ==> MANIFEST_PATH[i] != 0;
    assert Writable(directory) && Writable(file);
  }

  lemma ManifestIsAccepted()
    ensures Accepted(MANIFEST)
  {
    hide Accepted, PlainPath;
    AcceptedIff(MANIFEST);
    assert MANIFEST[0] != NODE_MODULES[0] && |MANIFEST| == |NODE_MODULES| == 12;
    assert forall i :: 0 <= i < |MANIFEST| ==> MANIFEST[i] != BACKSLASH && MANIFEST[i] != SLASH;
    hide MANIFEST, NODE_MODULES;
    OneSegment(MANIFEST);
  }

  lemma OneSegment(p: Bytes)
    requires SLASH !in p && p != [] && p != HERE && p != UP
    ensures PlainPath(p)
  {
    var stack := [p];
    assert Plain(stack) && p == Framed(stack, false, false);
  }
}
