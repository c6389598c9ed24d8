/** The byte streams that are hashed over a list of files: each determines the list. */
module Digests {
  import opened Wrappers
  import opened Text
  import opened TarPaths
  import opened Tar
  import Decimal

  const COLON: byte := 0x3A

  /** The records of the files, one after another. */
  function StreamOf(record: File -> Bytes, files: seq<File>): Bytes {
    if files == [] then [] else StreamOf(record, files[..|files| - 1]) + record(files[|files| - 1])
  }

  lemma {:induction false} StreamFront(record: File -> Bytes, files: seq<File>)
    requires files != []
    ensures StreamOf(record, files) == record(files[0]) + StreamOf(record, files[1..])
  {
    var n := |files|;
    if n == 1 {
      assert files[..0] == [] == files[1..];
    } else {
      StreamFront(record, files[..n - 1]);
      assert files[..n - 1][1..] == files[1..][..n - 2];
      assert files[1..][n - 2] == files[n - 1];
    }
  }

  /** One more record at the end of a stream. */
  lemma StreamGrows(record: File -> Bytes, files: seq<File>, i: nat)
    requires i < |files|
    ensures StreamOf(record, files[..i + 1]) == StreamOf(record, files[..i]) + record(files[i])
  {
    assert files[..i + 1][..i] == files[..i];
  }

  // ---------------------------------------------------------------- decimal lengths

  /** A length in decimal, a colon, and the bytes. */
  function Netstring(bytes: Bytes): Bytes {
    LengthPrefix(bytes) + bytes
  }

  function LengthPrefix(bytes: Bytes): Bytes {
    Decimal.Print(|bytes|) + [COLON]
  }

  function PackageRecord(f: File): Bytes {
    Netstring(f.path) + Netstring(f.content)
  }

  function PackageStream(files: seq<File>): Bytes {
    StreamOf(PackageRecord, files)
  }

  /** What the package digest is fed with. */
  method FeedPackage(files: seq<File>) returns (stream: Bytes)
    ensures stream == PackageStream(files)
  {
    hide LengthPrefix;
    stream := [];
    for i := 0 to |files|
      invariant stream == StreamOf(PackageRecord, files[..i])
    {
      ghost var fed := stream;
      stream := stream + LengthPrefix(files[i].path);
      stream := stream + files[i].path;
      stream := stream + LengthPrefix(files[i].content);
      stream := stream + files[i].content;
      assert stream == fed + PackageRecord(files[i]);
      StreamGrows(PackageRecord, files, i);
    }
    assert files[..|files|] == files;
  }

  /** A netstring at the front of a stream, and the rest. */
  function TakeNetstring(stream: Bytes): (r: Option<(Bytes, Bytes)>)
    ensures r.Some? ==> |r.value.1| < |stream|
  {
    var n := Decimal.Span(stream);
    if n == 0 || n == |stream| || stream[n] != COLON then None
    else
      var length := Decimal.Value(stream[..n]);
      if n + 1 + length > |stream| then None
      else Some((stream[n + 1..n + 1 + length], stream[n + 1 + length..]))
  }

  function DecodePackage(stream: Bytes): Option<seq<File>>
    decreases |stream|
  {
    if stream == [] then Some([])
    else
      var path := TakeNetstring(stream);
      if path.None? then None
      else
        var content := TakeNetstring(path.value.1);
        if content.None? then None
        else
          var rest := DecodePackage(content.value.1);
          if rest.None? then None else Some([File(path.value.0, content.value.0)] + rest.value)
  }

  lemma NetstringReadsBack(bytes: Bytes, rest: Bytes)
    ensures TakeNetstring(Netstring(bytes) + rest) == Some((bytes, rest)) && Netstring(bytes) != []
  {
    var tail := [COLON] + bytes + rest;
    var digits := Decimal.Print(|bytes|);
    var stream := Netstring(bytes) + rest;
    assert stream == digits + tail;
    Decimal.ReadBack(|bytes|, tail);
    Decimal.SpanOfNumeral(digits, tail);
    assert stream[|digits|] == COLON;
    assert stream[|digits| + 1..|digits| + 1 + |bytes|] == bytes;
    assert stream[|digits| + 1 + |bytes|..] == rest;
  }

  lemma PackageDecodeStep(f: File, rest: Bytes, files: seq<File>)
    requires DecodePackage(rest) == Some(files)
    ensures DecodePackage(PackageRecord(f) + rest) == Some([f] + files)
  {
    hide TakeNetstring, Netstring;
    assert PackageRecord(f) + rest == Netstring(f.path) + (Netstring(f.content) + rest);
    NetstringReadsBack(f.path, Netstring(f.content) + rest);
    NetstringReadsBack(f.content, rest);
  }

  /** The package stream can be read back. */
  lemma {:induction false} PackageStreamDecodes(files: seq<File>)
    ensures DecodePackage(PackageStream(files)) == Some(files)
  {
    if files != [] {
      hide DecodePackage, PackageRecord;
      StreamFront(PackageRecord, files);
      PackageStreamDecodes(files[1..]);
      PackageDecodeStep(files[0], PackageStream(files[1..]), files[1..]);
      hide StreamOf;
      assert files == [files[0]] + files[1..];
    }
  }

  /** With a digest that never collides, equal package digests mean equal lists of paths and contents. */
  lemma EqualPackageDigests<D(!new)>(digest: Bytes -> D, a: seq<File>, b: seq<File>)
    requires forall s, t :: digest(s) == digest(t) ==> s == t
    ensures digest(PackageStream(a)) == digest(PackageStream(b)) <==> a == b
  {
    PackageStreamDecodes(a);
    PackageStreamDecodes(b);
  }

  // ---------------------------------------------------------------- 8-byte lengths

  const WIDE := 0x1_0000_0000_0000_0000

  function BigEndian(n: nat, width: nat): Bytes {
    if width == 0 then [] else BigEndian(n / 256, width - 1) + [n % 256]
  }

  function FromBigEndian(bytes: Bytes): nat {
    if bytes == [] then 0 else 256 * FromBigEndian(bytes[..|bytes| - 1]) + bytes[|bytes| - 1]
  }

  function Counted(bytes: Bytes): Bytes {
    BigEndian(|bytes|, 8) + bytes
  }

  function DirectoryRecord(f: File): Bytes {
    Counted(f.path) + Counted(f.content)
  }

  function DirectoryStream(files: seq<File>): Bytes {
    StreamOf(DirectoryRecord, files)
  }

  /** What the directory digest is fed with. */
  method FeedDirectory(files: seq<File>) returns (stream: Bytes)
    ensures stream == DirectoryStream(files)
  {
    stream := [];
    for i := 0 to |files|
      invariant stream == StreamOf(DirectoryRecord, files[..i])
    {
      ghost var fed := stream;
      stream := stream + BigEndian(|files[i].path|, 8);
      stream := stream + files[i].path;
      stream := stream + BigEndian(|files[i].content|, 8);
      stream := stream + files[i].content;
      assert stream == fed + DirectoryRecord(files[i]);
      StreamGrows(DirectoryRecord, files, i);
    }
    assert files[..|files|] == files;
  }

  function TakeCounted(stream: Bytes): (r: Option<(Bytes, Bytes)>)
    ensures r.Some? ==> |r.value.1| < |stream|
  {
    if |stream| < 8 then None
    else
      var length := FromBigEndian(stream[..8]);
      if 8 + length > |stream| then None else Some((stream[8..8 + length], stream[8 + length..]))
  }

  function DecodeDirectory(stream: Bytes): Option<seq<File>>
    decreases |stream|
  {
    if stream == [] then Some([])
    else
      var path := TakeCounted(stream);
      if path.None? then None
      else
        var content := TakeCounted(path.value.1);
        if content.None? then None
        else
          var rest := DecodeDirectory(content.value.1);
          if rest.None? then None else Some([File(path.value.0, content.value.0)] + rest.value)
  }

  function Power256(width: nat): nat {
    if width == 0 then 1 else 256 * Power256(width - 1)
  }

  lemma {:induction false} BigEndianReadsBack(n: nat, width: nat)
    requires n < Power256(width)
    ensures |BigEndian(n, width)| == width && FromBigEndian(BigEndian(n, width)) == n
  {
    if width > 0 {
      BigEndianReadsBack(n / 256, width - 1);
      assert BigEndian(n, width)[..width - 1] == BigEndian(n / 256, width - 1);
    }
  }

  lemma CountedReadsBack(bytes: Bytes, rest: Bytes)
    requires |bytes| < WIDE
    ensures TakeCounted(Counted(bytes) + rest) == Some((bytes, rest)) && Counted(bytes) != []
  {
    assert Power256(8) == WIDE;
    hide Power256;
    BigEndianReadsBack(|bytes|, 8);
    hide BigEndian, FromBigEndian;
    var stream := Counted(bytes) + rest;
    assert stream[..8] == BigEndian(|bytes|, 8);
    assert stream[8..8 + |bytes|] == bytes && stream[8 + |bytes|..] == rest;
  }

  /** Lengths that fit the field; the program fails on any other. */
  ghost predicate Fits(files: seq<File>) {
    forall i :: 0 <= i < |files| ==> |files[i].path| < WIDE && |files[i].content| < WIDE
  }

  lemma DirectoryDecodeStep(f: File, rest: Bytes, files: seq<File>)
    requires |f.path| < WIDE && |f.content| < WIDE && DecodeDirectory(rest) == Some(files)
    ensures DecodeDirectory(DirectoryRecord(f) + rest) == Some([f] + files)
  {
    hide TakeCounted, Counted;
    assert DirectoryRecord(f) + rest == Counted(f.path) + (Counted(f.content) + rest);
    CountedReadsBack(f.path, Counted(f.content) + rest);
    CountedReadsBack(f.content, rest);
  }

  /** The directory stream can be read back. */
  lemma {:induction false} DirectoryStreamDecodes(files: seq<File>)
    requires Fits(files)
    ensures DecodeDirectory(DirectoryStream(files)) == Some(files)
  {
    if files != [] {
      hide DecodeDirectory, DirectoryRecord;
      StreamFront(DirectoryRecord, files);
      DirectoryStreamDecodes(files[1..]);
      DirectoryDecodeStep(files[0], DirectoryStream(files[1..]), files[1..]);
      hide StreamOf;
      assert files == [files[0]] + files[1..];
    }
  }

  /** With a digest that never collides, equal directory digests mean equal lists of paths and contents. */
  lemma EqualDirectoryDigests<D(!new)>(digest: Bytes -> D, a: seq<File>, b: seq<File>)
    requires Fits(a) && Fits(b) && forall s, t :: digest(s) == digest(t) ==> s == t
    ensures digest(DirectoryStream(a)) == digest(DirectoryStream(b)) <==> a == b
  {
    DirectoryStreamDecodes(a);
    DirectoryStreamDecodes(b);
  }
}
