/** The two walks over a package archive: collecting its files, and finding its manifest. */
module Tar {
  import opened Wrappers
  import opened TarPaths

  const BLOCK := 512
  const MAX_SAFE := 0x1F_FFFF_FFFF_FFFF

  const PACKAGE: Bytes := [0x70, 0x61, 0x63, 0x6B, 0x61, 0x67, 0x65, 0x2F]
  const MANIFEST: Bytes := [0x70, 0x61, 0x63, 0x6B, 0x61, 0x67, 0x65, 0x2E, 0x6A, 0x73, 0x6F, 0x6E]

  const MANIFEST_PATH: Bytes := PACKAGE + MANIFEST

  const REGULAR: byte := 0x30
  const DIRECTORY: byte := 0x35

  datatype Error = BadSize | Truncated | OutsidePackage | BadPath | Unsupported | NoManifest

  // ---------------------------------------------------------------- header fields

  /** The first zero at or after `from`. */
  function IndexOfZero(header: Bytes, from: nat): (r: Option<nat>)
    requires from <= |header|
    ensures r.Some? ==> from <= r.value < |header| && header[r.value] == 0 && forall i :: from <= i < r.value ==> header[i] != 0
    ensures r.None? ==> forall i :: from <= i < |header| ==> header[i] != 0
    decreases |header| - from
  {
    if from == |header| then None else if header[from] == 0 then Some(from) else IndexOfZero(header, from + 1)
  }

  function ReadText(header: Bytes, offset: nat, length: nat): Bytes
    requires offset + length <= |header|
  {
    var end := IndexOfZero(header, offset);
    var bounded := if end.None? || end.value > offset + length then offset + length else end.value;
    header[offset..bounded]
  }

  predicate IsOctal(b: byte) {
    0x30 <= b <= 0x37
  }

  /** The length of the white space that `text` starts with, in UTF-8: 0 when there is none. */
  function SpaceLength(text: Bytes): (n: nat)
    ensures n <= |text|
  {
    if |text| >= 1 && (text[0] == 0x20 || 0x09 <= text[0] <= 0x0D) then 1
    else if StartsWith(text, [0xC2, 0xA0]) then 2
    else if StartsWith(text, [0xE1, 0x9A, 0x80]) || StartsWith(text, [0xE2, 0x81, 0x9F])
         || StartsWith(text, [0xE3, 0x80, 0x80]) || StartsWith(text, [0xEF, 0xBB, 0xBF])
         || (|text| >= 3 && StartsWith(text, [0xE2, 0x80])
             && (0x80 <= text[2] <= 0x8A || text[2] == 0xA8 || text[2] == 0xA9 || text[2] == 0xAF)) then 3
    else 0
  }

  function SkipSpace(text: Bytes): (rest: Bytes)
    ensures |rest| <= |text|
    decreases |text|
  {
    if SpaceLength(text) == 0 then text else SkipSpace(text[SpaceLength(text)..])
  }

  function OctalSpan(text: Bytes): (n: nat)
    ensures n <= |text| && (forall i :: 0 <= i < n ==> IsOctal(text[i])) && (n < |text| ==> !IsOctal(text[n]))
  {
    if text == [] || !IsOctal(text[0]) then 0 else 1 + OctalSpan(text[1..])
  }

  function OctalValue(digits: Bytes): nat
    requires forall i :: 0 <= i < |digits| ==> IsOctal(digits[i])
  {
    if digits == [] then 0
    else
      var last := digits[|digits| - 1];
      assert IsOctal(last);
      8 * OctalValue(digits[..|digits| - 1]) + (last - 0x30)
  }

  /** Number.parseInt(text, 8): None for NaN. */
  function ParseOctal(text: Bytes): Option<int> {
    var rest := SkipSpace(text);
    var negative := rest != [] && rest[0] == 0x2D;
    var digits := if rest != [] && (rest[0] == 0x2D || rest[0] == 0x2B) then rest[1..] else rest;
    var n := OctalSpan(digits);
    var value: int := OctalValue(digits[..n]);
    if n == 0 then None else Some(if negative then -value else value)
  }

  function ReadSize(header: Bytes): Option<nat>
    requires |header| == BLOCK
  {
    var size := ParseOctal(ReadText(header, 124, 12));
    if size.None? || size.value > MAX_SAFE || size.value < 0 then None else Some(size.value)
  }

  function ReadPath(header: Bytes): Bytes
    requires |header| == BLOCK
  {
    var name, prefix := ReadText(header, 0, 100), ReadText(header, 345, 155);
    if prefix != [] then prefix + [SLASH] + name else name
  }

  predicate AllZero(header: Bytes) {
    forall i :: 0 <= i < |header| ==> header[i] == 0
  }

  // ---------------------------------------------------------------- the entries of an archive

  datatype Entry = Entry(path: Bytes, kind: byte, start: nat, end: nat)

  /** The entries before the walk ends, and why it stopped when it could not go on. */
  datatype Entries = Entries(list: seq<Entry>, failure: Option<Error>)

  /** The size rounded up to whole blocks. */
  function Padded(size: nat): (n: nat)
    ensures size <= n < size + 512 && n % 512 == 0
  {
    (size + 511) / 512 * 512
  }

  function EntryAt(archive: Bytes, offset: nat): Result<Entry, Error>
    requires offset + BLOCK <= |archive|
  {
    var header := archive[offset..offset + BLOCK];
    var size := ReadSize(header);
    if size.None? then Err(BadSize)
    else if offset + BLOCK + size.value > |archive| then Err(Truncated)
    else Ok(Entry(ReadPath(header), header[156], offset + BLOCK, offset + BLOCK + size.value))
  }

  predicate Ended(archive: Bytes, offset: nat) {
    offset + BLOCK > |archive| || AllZero(archive[offset..offset + BLOCK])
  }

  function Next(e: Entry): nat
    requires e.start <= e.end
  {
    e.start + Padded(e.end - e.start)
  }

  ghost predicate InBounds(archive: Bytes, entries: seq<Entry>) {
    forall i :: 0 <= i < |entries| ==> entries[i].start <= entries[i].end <= |archive|
  }

  ghost function EntriesFrom(archive: Bytes, offset: nat): (r: Entries)
    ensures InBounds(archive, r.list)
    decreases |archive| - offset
  {
    if Ended(archive, offset) then Entries([], None)
    else
      match EntryAt(archive, offset)
      case Err(e) => Entries([], Some(e))
      case Ok(entry) =>
        var rest := EntriesFrom(archive, Next(entry));
        Entries([entry] + rest.list, rest.failure)
  }

  /** Contents are in bounds, after their headers, disjoint and in order. */
  ghost predicate Ordered(archive: Bytes, offset: nat, entries: seq<Entry>) {
    && (forall i :: 0 <= i < |entries| ==> offset + BLOCK <= entries[i].start <= entries[i].end <= |archive|)
    && (forall i, j :: 0 <= i < j < |entries| ==> entries[i].end + BLOCK <= entries[j].start)
  }

  lemma {:induction false} EntriesAreOrdered(archive: Bytes, offset: nat)
    ensures Ordered(archive, offset, EntriesFrom(archive, offset).list)
    decreases |archive| - offset
  {
    if !Ended(archive, offset) && EntryAt(archive, offset).Ok? {
      var entry := EntryAt(archive, offset).value;
      NextIsAfter(entry);
      EntriesAreOrdered(archive, Next(entry));
    }
  }

  lemma NextIsAfter(e: Entry)
    requires e.start <= e.end
    ensures e.end <= Next(e) < e.end + BLOCK && (Next(e) - e.start) % 512 == 0
  {
  }

  // ---------------------------------------------------------------- what each walk makes of them

  datatype File = File(path: Bytes, content: Bytes)

  function Content(archive: Bytes, e: Entry): Bytes
    requires e.start <= e.end <= |archive|
  {
    archive[e.start..e.end]
  }

  /** What the candidate walk does with one entry: a file, nothing, or an error. */
  function Classify(archive: Bytes, e: Entry): Result<seq<File>, Error>
    requires e.start <= e.end <= |archive|
  {
    if e.kind == 0 || e.kind == REGULAR then
      if !StartsWith(e.path, PACKAGE) then Err(OutsidePackage)
      else if !Accepted(e.path[|PACKAGE|..]) then Err(BadPath)
      else Ok([File(e.path[|PACKAGE|..], Content(archive, e))])
    else if e.kind != DIRECTORY then Err(Unsupported)
    else Ok([])
  }

  /** The files of the entries, up to the first that is refused. */
  ghost function Collect(archive: Bytes, entries: seq<Entry>, failure: Option<Error>): Result<seq<File>, Error>
    requires InBounds(archive, entries)
  {
    if entries == [] then (if failure.Some? then Err(failure.value) else Ok([]))
    else
      match Classify(archive, entries[0])
      case Err(e) => Err(e)
      case Ok(files) =>
        match Collect(archive, entries[1..], failure)
        case Err(e) => Err(e)
        case Ok(rest) => Ok(files + rest)
  }

  /** The content of the first entry that is the manifest, whatever its type. */
  ghost function Find(archive: Bytes, entries: seq<Entry>, failure: Option<Error>): Result<Bytes, Error>
    requires InBounds(archive, entries)
  {
    if entries == [] then Err(if failure.Some? then failure.value else NoManifest)
    else if entries[0].path == MANIFEST_PATH then Ok(Content(archive, entries[0]))
    else Find(archive, entries[1..], failure)
  }

  ghost function Candidate(archive: Bytes, offset: nat): Result<seq<File>, Error> {
    var entries := EntriesFrom(archive, offset);
    Collect(archive, entries.list, entries.failure)
  }

  ghost function Manifest(archive: Bytes, offset: nat): Result<Bytes, Error> {
    var entries := EntriesFrom(archive, offset);
    Find(archive, entries.list, entries.failure)
  }

  ghost function After(files: seq<File>, rest: Result<seq<File>, Error>): Result<seq<File>, Error> {
    match rest
    case Ok(more) => Ok(files + more)
    case Err(e) => Err(e)
  }

  lemma AfterAfter(a: seq<File>, b: seq<File>, rest: Result<seq<File>, Error>)
    ensures After(a, After(b, rest)) == After(a + b, rest)
  {
    if rest.Ok? {
      assert a + (b + rest.value) == a + b + rest.value;
    }
  }

  lemma AfterNothing(rest: Result<seq<File>, Error>)
    ensures After([], rest) == rest
  {
    if rest.Ok? {
      assert [] + rest.value == rest.value;
    }
  }

  /** One round of the candidate walk. */
  lemma CandidateStep(archive: Bytes, offset: nat)
    ensures Candidate(archive, offset) ==
              if Ended(archive, offset) then Ok([])
              else match EntryAt(archive, offset)
                case Err(e) => Err(e)
                case Ok(entry) =>
                  match Classify(archive, entry)
                  case Err(e) => Err(e)
                  case Ok(files) => After(files, Candidate(archive, Next(entry)))
  {
    hide Classify;
    if !Ended(archive, offset) && EntryAt(archive, offset).Ok? {
      var entry := EntryAt(archive, offset).value;
      assert ([entry] + EntriesFrom(archive, Next(entry)).list)[1..] == EntriesFrom(archive, Next(entry)).list;
    }
  }

  lemma ManifestStep(archive: Bytes, offset: nat)
    ensures Manifest(archive, offset) ==
              if Ended(archive, offset) then Err(NoManifest)
              else match EntryAt(archive, offset)
                case Err(e) => Err(e)
                case Ok(entry) => if entry.path == MANIFEST_PATH then Ok(Content(archive, entry)) else Manifest(archive, Next(entry))
  {
    if !Ended(archive, offset) && EntryAt(archive, offset).Ok? {
      var entry := EntryAt(archive, offset).value;
      assert ([entry] + EntriesFrom(archive, Next(entry)).list)[1..] == EntriesFrom(archive, Next(entry)).list;
    }
  }

  // ---------------------------------------------------------------- the walks as the program runs them

  /** The files of a candidate package's archive, in archive order. */
  method CandidateFiles(archive: Bytes) returns (r: Result<seq<File>, Error>)
    ensures r == Candidate(archive, 0)
  {
    hide Candidate, Accepted, ReadSize, ReadPath;
    var files, offset := [], 0;
    AfterNothing(Candidate(archive, 0));
    while offset + BLOCK <= |archive|
      invariant Candidate(archive, 0) == After(files, Candidate(archive, offset))
      decreases |archive| - offset
    {
      CandidateStep(archive, offset);
      var header := archive[offset..offset + BLOCK];
      if AllZero(header) {
        break;
      }
      var path := ReadPath(header);
      var size := ReadSize(header);
      if size.None? {
        return Err(BadSize);
      }
      var start := offset + BLOCK;
      var end := start + size.value;
      if end > |archive| {
        return Err(Truncated);
      }
      var kind := header[156];
      ghost var entry := Entry(path, kind, start, end);
      if kind == 0 || kind == REGULAR {
        if !StartsWith(path, PACKAGE) {
          return Err(OutsidePackage);
        }
        var relative := path[|PACKAGE|..];
        if !Accepted(relative) {
          return Err(BadPath);
        }
        AfterAfter(files, [File(relative, archive[start..end])], Candidate(archive, Next(entry)));
        files := files + [File(relative, archive[start..end])];
      } else if kind != DIRECTORY {
        return Err(Unsupported);
      } else {
        AfterNothing(Candidate(archive, Next(entry)));
      }
      offset := start + Padded(size.value);
    }
    CandidateStep(archive, offset);
    assert files + [] == files;
    return Ok(files);
  }

  /** The bytes of the manifest of a packed package. */
  method PackedManifest(archive: Bytes) returns (r: Result<Bytes, Error>)
    ensures r == Manifest(archive, 0)
  {
    hide Manifest, ReadSize, ReadPath;
    var offset := 0;
    while offset + BLOCK <= |archive|
      invariant Manifest(archive, 0) == Manifest(archive, offset)
      decreases |archive| - offset
    {
      ManifestStep(archive, offset);
      var header := archive[offset..offset + BLOCK];
      if AllZero(header) {
        break;
      }
      var path := ReadPath(header);
      var size := ReadSize(header);
      if size.None? {
        return Err(BadSize);
      }
      var start := offset + BLOCK;
      var end := start + size.value;
      if end > |archive| {
        return Err(Truncated);
      }
      if path == MANIFEST_PATH {
        return Ok(archive[start..end]);
      }
      offset := start + Padded(size.value);
    }
    ManifestStep(archive, offset);
    return Err(NoManifest);
  }

  // ---------------------------------------------------------------- agreement of the two walks

  /** The content of the first file that is the manifest. */
  ghost function FirstManifest(files: seq<File>): Option<Bytes> {
    if files == [] then None
    else if files[0].path == MANIFEST then Some(files[0].content)
    else FirstManifest(files[1..])
  }

  /** The first entry with the manifest's path, when there is one. */
  ghost function ManifestEntry(entries: seq<Entry>): Option<Entry> {
    if entries == [] then None
    else if entries[0].path == MANIFEST_PATH then Some(entries[0])
    else ManifestEntry(entries[1..])
  }

  ghost predicate IsFile(e: Entry) {
    e.kind == 0 || e.kind == REGULAR
  }

  lemma ManifestPathStarts(path: Bytes)
    ensures path == MANIFEST_PATH <==> StartsWith(path, PACKAGE) && path[|PACKAGE|..] == MANIFEST
  {
    if StartsWith(path, PACKAGE) {
      assert path == path[..|PACKAGE|] + path[|PACKAGE|..];
    }
  }

  /**
   On an archive whose files the candidate walk collects, the manifest walk returns the collected
   content of the manifest when the first entry of that path is a file, and fails when there is none.
   */
  lemma {:induction false} WalksAgree(archive: Bytes, entries: seq<Entry>)
    requires InBounds(archive, entries) && Collect(archive, entries, None).Ok?
    ensures ManifestEntry(entries).None? ==>
              Find(archive, entries, None) == Err(NoManifest) && FirstManifest(Collect(archive, entries, None).value).None?
    ensures ManifestEntry(entries).Some? && IsFile(ManifestEntry(entries).value) ==>
              var found := FirstManifest(Collect(archive, entries, None).value);
              found.Some? && Find(archive, entries, None) == Ok(found.value)
  {
    if entries != [] {
      hide Accepted;
      ManifestPathStarts(entries[0].path);
      hide StartsWith;
      WalksAgree(archive, entries[1..]);
      var files := Collect(archive, entries, None).value;
      var rest := Collect(archive, entries[1..], None).value;
      var first := Classify(archive, entries[0]).value;
      assert files == first + rest;
      if first == [] {
        assert files == rest;
      } else {
        assert files[1..] == rest && files[0] == first[0];
      }
    }
  }

  /** The walks say the same of the manifest: the same content, or that there is none. */
  ghost predicate Agree(manifest: Result<Bytes, Error>, collected: Option<Bytes>) {
    match collected
    case None => manifest == Err(NoManifest)
    case Some(content) => manifest == Ok(content)
  }

  lemma {:induction false} FindsManifestEntry(archive: Bytes, entries: seq<Entry>)
    requires InBounds(archive, entries)
    ensures var entry := ManifestEntry(entries);
            && (entry.Some? ==> entry.value in entries)
            && Find(archive, entries, None) == if entry.None? then Err(NoManifest) else Ok(Content(archive, entry.value))
  {
    if entries != [] {
      FindsManifestEntry(archive, entries[1..]);
    }
  }

  /**
   On an archive whose files the candidate walk collects, the two walks agree on the manifest exactly
   when the first entry of its path is absent or a file, or has by chance the content of the file of
   that path that comes later.
   */
  lemma CandidateAgreesWithManifest(archive: Bytes)
    requires Candidate(archive, 0).Ok?
    ensures var entry := ManifestEntry(EntriesFrom(archive, 0).list);
            var found := FirstManifest(Candidate(archive, 0).value);
            && (entry.Some? ==> entry.value.start <= entry.value.end <= |archive|)
            && (Agree(Manifest(archive, 0), found) <==>
                  || entry.None?
                  || IsFile(entry.value)
                  || (found.Some? && found.value == Content(archive, entry.value)))
  {
    var entries := EntriesFrom(archive, 0);
    FailureSpreads(archive, entries.list, entries.failure);
    WalksAgree(archive, entries.list);
    FindsManifestEntry(archive, entries.list);
    hide Collect, Find, ManifestEntry, FirstManifest, EntriesFrom;
  }

  lemma {:induction false} FailureSpreads(archive: Bytes, entries: seq<Entry>, failure: Option<Error>)
    requires InBounds(archive, entries) && Collect(archive, entries, failure).Ok?
    ensures failure.None?
  {
    if entries != [] {
      FailureSpreads(archive, entries[1..], failure);
    }
  }
}
