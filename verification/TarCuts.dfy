/** Archives that are not as they should be: members of other kinds or places, and files cut off anywhere. */
module TarCuts {
  import opened Wrappers
  import opened TarPaths
  import opened Tar
  import opened TarWriter

  // ---------------------------------------------------------------- refused members

  /** Why the candidate walk refuses a member; None for the ordinary ones. */
  ghost predicate RefusedFor(m: Member, e: Error) {
    match e
    case Unsupported => m.kind != 0 && m.kind != REGULAR && m.kind != DIRECTORY
    case OutsidePackage => (m.kind == 0 || m.kind == REGULAR) && (|PathOf(m)| < |PACKAGE| || PathOf(m)[..|PACKAGE|] != PACKAGE)
    case BadPath => (m.kind == 0 || m.kind == REGULAR) && |PathOf(m)| >= |PACKAGE| && PathOf(m)[..|PACKAGE|] == PACKAGE
                    && !Accepted(PathOf(m)[|PACKAGE|..])
    case _ => false
  }

  lemma {:induction false} CollectRefuses(archive: Bytes, entries: seq<Entry>, failure: Option<Error>, members: seq<Member>, k: nat, e: Error)
    requires InBounds(archive, entries) && DescribesAll(archive, entries, members)
    requires k < |members| && (forall i :: 0 <= i < k ==> Ordinary(members[i])) && RefusedFor(members[k], e)
    ensures Collect(archive, entries, failure) == Err(e)
  {
    assert Describes(archive, entries[0], members[0]);
    if k > 0 {
      assert Ordinary(members[0]);
      hide Accepted, StartsWith;
      CollectRefuses(archive, entries[1..], failure, members[1..], k - 1, e);
    } else {
      hide Accepted;
    }
  }

  lemma OrdinaryOrRefused(m: Member)
    ensures Ordinary(m) <==> forall e :: !RefusedFor(m, e)
  {
    hide Accepted;
    if !Ordinary(m) {
      assert RefusedFor(m, Unsupported) || RefusedFor(m, OutsidePackage) || RefusedFor(m, BadPath);
    }
  }

  /**
   The candidate walk refuses a written archive exactly when it has a member that is neither a directory
   nor a file with an accepted path inside the package, and for the reason of the first of them.
   */
  lemma CandidateRefusesIff(members: seq<Member>, tail: Bytes)
    requires AllWritable(members)
    ensures var r := Candidate(Archive(members, tail), 0);
            && (r.Err? <==> exists k :: 0 <= k < |members| && !Ordinary(members[k]))
            && forall k, e :: 0 <= k < |members| && (forall i :: 0 <= i < k ==> Ordinary(members[i])) && RefusedFor(members[k], e) ==> r == Err(e)
  {
    hide Ordinary, RefusedFor, Archive, Candidate;
    forall k, e | 0 <= k < |members| && (forall i :: 0 <= i < k ==> Ordinary(members[i])) && RefusedFor(members[k], e)
      ensures Candidate(Archive(members, tail), 0) == Err(e)
    {
      RefusedMember(members, tail, k, e);
    }
    if exists k :: 0 <= k < |members| && !Ordinary(members[k]) {
      var k := FirstRefused(members);
      OrdinaryOrRefused(members[k]);
      var e :| RefusedFor(members[k], e);
      RefusedMember(members, tail, k, e);
    } else {
      CandidateReadsWritten(members, tail);
    }
  }

  lemma RefusedMember(members: seq<Member>, tail: Bytes, k: nat, e: Error)
    requires AllWritable(members) && k < |members|
    requires (forall i :: 0 <= i < k ==> Ordinary(members[i])) && RefusedFor(members[k], e)
    ensures Candidate(Archive(members, tail), 0) == Err(e)
  {
    var archive := Archive(members, tail);
    assert archive[0..] == archive;
    hide Ordinary, RefusedFor, Archive, DescribesAll, Collect, AllWritable;
    ArchiveReadsBack(archive, 0, members, tail);
    CollectRefuses(archive, EntriesOf(members, 0), None, members, k, e);
  }

  lemma FirstRefused(members: seq<Member>) returns (k: nat)
    requires exists k :: 0 <= k < |members| && !Ordinary(members[k])
    ensures k < |members| && !Ordinary(members[k]) && forall i :: 0 <= i < k ==> Ordinary(members[i])
  {
    hide Ordinary;
    k := 0;
    while Ordinary(members[k])
      invariant k < |members| && (forall i :: 0 <= i < k ==> Ordinary(members[i]))
      decreases |members| - k
    {
      k := k + 1;
    }
  }

  // ---------------------------------------------------------------- archives that are cut off

  /** The members' blocks, without an end. */
  function Blocks(members: seq<Member>): Bytes
    requires forall i :: 0 <= i < |members| ==> |members[i].name| <= 100 && |members[i].prefix| <= 155
  {
    if members == [] then [] else Written(members[0]) + Blocks(members[1..])
  }

  /** The walk at the end of the archive finds these members and stops for this reason. */
  ghost predicate EndsWith(archive: Bytes, end: Bytes, last: seq<Member>, failure: Option<Error>) {
    forall n: nat :: n <= |archive| && archive[n..] == end ==>
      var entries := EntriesFrom(archive, n);
      entries.failure == failure && DescribesAll(archive, entries.list, last)
  }

  lemma {:induction false} BlocksReadBack(archive: Bytes, offset: nat, members: seq<Member>, end: Bytes, last: seq<Member>, failure: Option<Error>)
    requires AllWritable(members) && offset <= |archive| && archive[offset..] == Blocks(members) + end
    requires EndsWith(archive, end, last, failure)
    ensures EntriesFrom(archive, offset).failure == failure
    ensures DescribesAll(archive, EntriesFrom(archive, offset).list, members + last)
    decreases |members|
  {
    if members == [] {
      assert archive[offset..] == end && members + last == last;
      hide EntriesFrom, DescribesAll, AllWritable;
    } else {
      FrontOfBlocks(members, end);
      assert Writable(members[0]) && AllWritable(members[1..]);
      assert (members + last)[1..] == members[1..] + last;
      hide Blocks, AllWritable, Ended, EntryAt, EntriesFrom, Written, Next, Writable, DescribesAll, EndsWith, EntryOf, Describes;
      var next := MemberStep(archive, offset, members[0], Blocks(members[1..]) + end);
      BlocksReadBack(archive, next, members[1..], end, last, failure);
      DescribesStep(archive, EntryOf(members[0], offset), EntriesFrom(archive, next).list, members + last);
    }
  }

  lemma MemberStep(archive: Bytes, offset: nat, m: Member, rest: Bytes) returns (next: nat)
    requires Writable(m) && offset <= |archive| && archive[offset..] == Written(m) + rest
    ensures next <= |archive| && archive[next..] == rest && Describes(archive, EntryOf(m, offset), m)
    ensures var others := EntriesFrom(archive, next);
            EntriesFrom(archive, offset) == Entries([EntryOf(m, offset)] + others.list, others.failure)
  {
    MemberAt(archive, offset, m, rest);
    hide Ended, EntryAt, Written, Writable, Describes;
    next := Next(EntryOf(m, offset));
  }

  lemma FrontOfBlocks(members: seq<Member>, end: Bytes)
    requires members != [] && forall i :: 0 <= i < |members| ==> |members[i].name| <= 100 && |members[i].prefix| <= 155
    ensures Blocks(members) + end == Written(members[0]) + (Blocks(members[1..]) + end)
  {
    hide Written;
  }

  lemma StepFrom(archive: Bytes, offset: nat, entry: Entry)
    requires !Ended(archive, offset) && EntryAt(archive, offset) == Ok(entry) && entry.start <= entry.end
    ensures var rest := EntriesFrom(archive, Next(entry));
            EntriesFrom(archive, offset) == Entries([entry] + rest.list, rest.failure)
  {
  }

  /** The blocks of `m` as far as they go when only `k` bytes of them are left. */
  function Cut(m: Member, k: nat): Bytes
    requires |m.name| <= 100 && |m.prefix| <= 155 && k <= |Written(m)|
  {
    Written(m)[..k]
  }

  /** A cut within a header looks like the end of the archive. */
  lemma CutHeader(archive: Bytes, end: Bytes)
    requires |end| < BLOCK
    ensures EndsWith(archive, end, [], None)
  {
    hide AllZero, EntryAt;
    forall n: nat | n <= |archive| && archive[n..] == end ensures Ended(archive, n) {
      assert |archive[n..]| == |archive| - n;
    }
  }

  /** A cut within a content is found out. */
  lemma CutContent(archive: Bytes, m: Member, k: nat)
    requires Writable(m) && BLOCK <= k < BLOCK + |m.content| && k <= |Written(m)|
    ensures EndsWith(archive, Cut(m, k), [], Some(Truncated))
  {
    hide ReadSize, AllZero, ReadPath, HeaderOf, PathOf;
    NameReadsBack(m);
    SizeReadsBack(m);
    hide Writable;
    forall n: nat | n <= |archive| && archive[n..] == Cut(m, k)
      ensures !Ended(archive, n) && EntryAt(archive, n) == Err(Truncated)
    {
      HeaderOfCut(archive, n, m, k);
    }
    hide Ended, EntryAt, Written, Cut;
  }

  lemma HeaderOfCut(archive: Bytes, n: nat, m: Member, k: nat)
    requires |m.name| <= 100 && |m.prefix| <= 155 && |HeaderOf(m)| == BLOCK <= k <= |Written(m)|
    requires n <= |archive| && archive[n..] == Cut(m, k)
    ensures n + k == |archive| && archive[n..n + BLOCK] == HeaderOf(m)
  {
    hide HeaderOf;
    assert |archive[n..]| == k;
    assert archive[n..n + BLOCK] == archive[n..][..BLOCK] == Written(m)[..BLOCK];
  }

  /** A cut within the padding of the last member loses nothing. */
  lemma CutPadding(archive: Bytes, m: Member, k: nat)
    requires Writable(m) && BLOCK + |m.content| <= k < |Written(m)|
    ensures EndsWith(archive, Cut(m, k), [m], None)
  {
    hide EntriesFrom, DescribesAll;
    forall n: nat | n <= |archive| && archive[n..] == Cut(m, k)
      ensures EntriesFrom(archive, n).failure == None && DescribesAll(archive, EntriesFrom(archive, n).list, [m])
    {
      PaddingAt(archive, n, m, k);
    }
  }

  lemma PaddingAt(archive: Bytes, n: nat, m: Member, k: nat)
    requires Writable(m) && BLOCK + |m.content| <= k < |Written(m)| && n <= |archive| && archive[n..] == Cut(m, k)
    ensures EntriesFrom(archive, n) == Entries([EntryOf(m, n)], None) && DescribesAll(archive, [EntryOf(m, n)], [m])
  {
    WrittenLength(m);
    HeaderOfCut(archive, n, m, k);
    ContentOfCut(archive, n, m, k);
    hide HeaderOf, PathOf, Written, Cut, Writable;
    EntryIs(archive, n, m);
    assert Ended(archive, Next(EntryOf(m, n)));
    StepFrom(archive, n, EntryOf(m, n));
    assert [EntryOf(m, n)] + [] == [EntryOf(m, n)];
  }

  lemma ContentOfCut(archive: Bytes, n: nat, m: Member, k: nat)
    requires |m.name| <= 100 && |m.prefix| <= 155 && |HeaderOf(m)| == BLOCK
    requires BLOCK + |m.content| <= k <= |Written(m)| && n <= |archive| && archive[n..] == Cut(m, k)
    ensures n + k == |archive| && archive[n + BLOCK..n + BLOCK + |m.content|] == m.content
  {
    hide HeaderOf;
    assert |archive[n..]| == k;
    assert archive[n + BLOCK..n + BLOCK + |m.content|] == archive[n..][BLOCK..BLOCK + |m.content|];
    assert Written(m)[BLOCK..BLOCK + |m.content|] == m.content;
  }

  /** What is left of the last member, and why the walk stops. */
  lemma CutEnds(archive: Bytes, m: Member, k: nat)
    requires Writable(m) && k < |Written(m)|
    ensures EndsWith(archive, Cut(m, k), if k < BLOCK + |m.content| then [] else [m],
                     if BLOCK <= k < BLOCK + |m.content| then Some(Truncated) else None)
  {
    hide EndsWith, Written;
    if k < BLOCK {
      CutHeader(archive, Cut(m, k));
    } else if k < BLOCK + |m.content| {
      CutContent(archive, m, k);
    } else {
      CutPadding(archive, m, k);
    }
  }

  lemma {:induction false} CollectUntil(archive: Bytes, entries: seq<Entry>, members: seq<Member>, failure: Option<Error>)
    requires InBounds(archive, entries) && DescribesAll(archive, entries, members)
    requires forall i :: 0 <= i < |members| ==> Ordinary(members[i])
    ensures Collect(archive, entries, failure) == if failure.Some? then Err(failure.value) else Ok(FilesOf(members))
  {
    if members != [] {
      assert Ordinary(members[0]) && Describes(archive, entries[0], members[0]);
      hide Accepted, StartsWith;
      CollectUntil(archive, entries[1..], members[1..], failure);
      assert [] + FilesOf(members[1..]) == FilesOf(members[1..]);
    }
  }

  lemma {:induction false} FindUntil(archive: Bytes, entries: seq<Entry>, members: seq<Member>, failure: Option<Error>)
    requires InBounds(archive, entries) && DescribesAll(archive, entries, members)
    requires forall i :: 0 <= i < |members| - 1 ==> PathOf(members[i]) != MANIFEST_PATH
    ensures Find(archive, entries, failure) ==
              if members != [] && PathOf(members[|members| - 1]) == MANIFEST_PATH then Ok(members[|members| - 1].content)
              else Err(if failure.Some? then failure.value else NoManifest)
  {
    hide MANIFEST_PATH, PathOf;
    if members != [] {
      FindUntil(archive, entries[1..], members[1..], failure);
    }
  }

  /**
   An archive of ordinary members that breaks off after `k` bytes of its last one: a break within the
   content is refused, one within the padding loses nothing, and one within the header is not noticed:
   the last member is missing, as if it had never been written.
   */
  lemma CutArchive(members: seq<Member>, m: Member, k: nat)
    requires AllWritable(members) && Writable(m) && k < |Written(m)|
    requires (forall i :: 0 <= i < |members| ==> Ordinary(members[i])) && Ordinary(m)
    ensures var archive := Blocks(members) + Cut(m, k);
            Candidate(archive, 0) ==
              if k < 512 then Ok(FilesOf(members))
              else if k < 512 + |m.content| then Err(Truncated)
              else Ok(FilesOf(members + [m]))
  {
    var archive := Blocks(members) + Cut(m, k);
    var last := if k < BLOCK + |m.content| then [] else [m];
    var failure := if BLOCK <= k < BLOCK + |m.content| then Some(Truncated) else None;
    CutReadsBack(members, m, k, last, failure);
    hide Blocks, Cut, Ordinary, Written, Writable, AllWritable, DescribesAll, Collect, EntriesFrom, FilesOf;
    CollectUntil(archive, EntriesFrom(archive, 0).list, members + last, failure);
    assert members + [] == members;
  }

  lemma CutReadsBack(members: seq<Member>, m: Member, k: nat, last: seq<Member>, failure: Option<Error>)
    requires AllWritable(members) && Writable(m) && k < |Written(m)|
    requires last == (if k < BLOCK + |m.content| then [] else [m])
    requires failure == (if BLOCK <= k < BLOCK + |m.content| then Some(Truncated) else None)
    ensures var archive := Blocks(members) + Cut(m, k);
            EntriesFrom(archive, 0).failure == failure && DescribesAll(archive, EntriesFrom(archive, 0).list, members + last)
  {
    var archive := Blocks(members) + Cut(m, k);
    assert archive[0..] == archive;
    hide Blocks, Cut, Written, EndsWith, EntriesFrom, DescribesAll;
    CutEnds(archive, m, k);
    BlocksReadBack(archive, 0, members, Cut(m, k), last, failure);
  }

  /** The manifest walk on such an archive, when the manifest is not among the whole members: it too overlooks a cut header. */
  lemma CutManifest(members: seq<Member>, m: Member, k: nat)
    requires AllWritable(members) && Writable(m) && k < |Written(m)|
    requires forall i :: 0 <= i < |members| ==> PathOf(members[i]) != MANIFEST_PATH
    ensures var archive := Blocks(members) + Cut(m, k);
            Manifest(archive, 0) ==
              if k < 512 then Err(NoManifest)
              else if k < 512 + |m.content| then Err(Truncated)
              else if PathOf(m) == MANIFEST_PATH then Ok(m.content) else Err(NoManifest)
  {
    var archive := Blocks(members) + Cut(m, k);
    var last := if k < BLOCK + |m.content| then [] else [m];
    var failure := if BLOCK <= k < BLOCK + |m.content| then Some(Truncated) else None;
    CutReadsBack(members, m, k, last, failure);
    hide Blocks, Cut, Written, Writable, AllWritable, DescribesAll, Find, EntriesFrom, MANIFEST_PATH, PathOf;
    FindUntil(archive, EntriesFrom(archive, 0).list, members + last, failure);
    assert members + [] == members;
  }
}
