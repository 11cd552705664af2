/**
  The HoneyGenesis metadata generator: a counting loop that builds one NFT
  metadata record per token, and the pairing of each record with the file
  it is written to.
 */
module Generate {
  import opened Wrappers
  import opened Decimal

  /** One `{ trait_type, value }` entry of a record's `attributes` list. */
  datatype Attribute = Attribute(traitType: string, value: string)

  /** One token's metadata record. */
  datatype Metadata = Metadata(
    name: string,
    description: string,
    image: string,
    attributes: seq<Attribute>)

  /** A request to write `content` to the file at `path`. */
  datatype FileWrite = FileWrite(path: string, content: Metadata)

  const NamePrefix: string := "HoneyGenesis #"
  const Description: string :=
    "HoneyGenesis is the Gen-0 series NFT created by Honeypot Finance team. This will help Honeypot Finance OGs gain unique perks."
  const Image: string :=
    "https://bafybeianvftytynjzo3twbmv36xrolkwmwfai5xcrxo6u5q3s5zsg5hwb4.ipfs.nftstorage.link/"
  const Attributes: seq<Attribute> := [
    Attribute("bear", "pot the bera"),
    Attribute("generation", "zero"),
    Attribute("nickname", "HoneyPotOG")
  ]
  /** The output directory, without its trailing separator. */
  const Directory: string := "./metadata"
  /** The token count the generator's entry point uses. */
  const TotalTokens: int := 6000

  // ---------------------------------------------------------------------------
  // Names

  /** The name of the token with the given 1-based ordinal. */
  function Name(ordinal: nat): string {
    NamePrefix + NatToDecimal(ordinal)
  }

  /** Reads the ordinal back out of a name; `None` for text that is not a name. */
  function NameOrdinal(name: string): Option<nat> {
    if |NamePrefix| <= |name| && name[..|NamePrefix|] == NamePrefix
    then ParseDecimal(name[|NamePrefix|..])
    else None
  }

  lemma NameOrdinalRoundTrip(ordinal: nat, name: string)
    ensures NameOrdinal(Name(ordinal)) == Some(ordinal)
    ensures NameOrdinal(name) == Some(ordinal) <==> name == Name(ordinal)
  {
    var s := Name(ordinal);
    assert s[..|NamePrefix|] == NamePrefix && s[|NamePrefix|..] == NatToDecimal(ordinal);
    ParseDecimalRoundTrip(ordinal, NatToDecimal(ordinal));
    if |NamePrefix| <= |name| && name[..|NamePrefix|] == NamePrefix {
      ParseDecimalRoundTrip(ordinal, name[|NamePrefix|..]);
      assert name == name[..|NamePrefix|] + name[|NamePrefix|..];
    }
  }

  lemma NameInjective(a: nat, b: nat)
    ensures Name(a) == Name(b) <==> a == b
  {
    NameOrdinalRoundTrip(a, Name(b));
    NameOrdinalRoundTrip(b, Name(b));
  }

  // ---------------------------------------------------------------------------
  // Generation

  /** The record the loop builds on its pass for `ordinal`. */
  function RecordFor(ordinal: nat): Metadata {
    Metadata(Name(ordinal), Description, Image, Attributes)
  }

  /** How many passes `for (i = 1; i <= totalTokens; i++)` makes. */
  function RecordCount(totalTokens: int): nat {
    if totalTokens <= 0 then 0 else totalTokens
  }

  /** The list the generator returns for `totalTokens`, one pass at a time:
      the list for one token fewer, with the next record pushed on. */
  function Generated(totalTokens: int): seq<Metadata>
    decreases RecordCount(totalTokens)
  {
    if totalTokens <= 0 then [] else Generated(totalTokens - 1) + [RecordFor(totalTokens)]
  }

  /** The list holds exactly `RecordCount` records, and position `k` holds the
      record for ordinal `k + 1`. */
  lemma {:induction false} GeneratedShape(totalTokens: int)
    ensures |Generated(totalTokens)| == RecordCount(totalTokens)
    ensures forall k :: 0 <= k < |Generated(totalTokens)| ==>
      Generated(totalTokens)[k] == RecordFor(k + 1)
    decreases RecordCount(totalTokens)
  {
    if totalTokens > 0 {
      GeneratedShape(totalTokens - 1);
    }
  }

  /** A later pass only appends: the list for `m` tokens is a prefix of the
      list for any larger count. */
  lemma {:induction false} GeneratedExtends(m: int, n: int)
    requires m <= n
    ensures |Generated(m)| <= |Generated(n)|
    ensures Generated(m) == Generated(n)[..|Generated(m)|]
  {
    GeneratedShape(m);
    GeneratedShape(n);
  }

  /** `generateMetadata`: a counting loop from 1 to `totalTokens` that pushes
      one record per pass. */
  method GenerateMetadata(totalTokens: int) returns (metadataList: seq<Metadata>)
    ensures metadataList == Generated(totalTokens)
    ensures |metadataList| == RecordCount(totalTokens)
    ensures forall k :: 0 <= k < |metadataList| ==> metadataList[k] == RecordFor(k + 1)
  {
    metadataList := [];
    var i := 1;
    while i <= totalTokens
      invariant 1 <= i
      invariant i == 1 || i <= totalTokens + 1
      invariant metadataList == Generated(i - 1)
      decreases totalTokens - i
    {
      var metadata := Metadata(NamePrefix + NatToDecimal(i), Description, Image, Attributes);
      metadataList := metadataList + [metadata];
      i := i + 1;
    }
    GeneratedShape(totalTokens);
  }

  /** Records that agree on every field except possibly `name`. */
  predicate SameExceptName(a: Metadata, b: Metadata) {
    a.description == b.description && a.image == b.image && a.attributes == b.attributes
  }

  /** What every generated record looks like: its name carries its 1-based
      position, and every other field is the fixed template. */
  lemma GeneratedRecord(totalTokens: int, k: int)
    requires 0 <= k < RecordCount(totalTokens)
    ensures k < |Generated(totalTokens)|
    ensures NameOrdinal(Generated(totalTokens)[k].name) == Some(k + 1)
    ensures Generated(totalTokens)[k].description == Description
    ensures Generated(totalTokens)[k].image == Image
    ensures Generated(totalTokens)[k].attributes == [
      Attribute("bear", "pot the bera"),
      Attribute("generation", "zero"),
      Attribute("nickname", "HoneyPotOG")
    ]
  {
    GeneratedShape(totalTokens);
    NameOrdinalRoundTrip(k + 1, Name(k + 1));
  }

  /** Any two generated records differ only in their names, and two records
      at different positions never share a name; names ascend with position. */
  lemma GeneratedDifferOnlyInName(totalTokens: int, j: int, k: int)
    requires 0 <= j < RecordCount(totalTokens) && 0 <= k < RecordCount(totalTokens)
    ensures j < |Generated(totalTokens)| && k < |Generated(totalTokens)|
    ensures SameExceptName(Generated(totalTokens)[j], Generated(totalTokens)[k])
    ensures Generated(totalTokens)[j].name == Generated(totalTokens)[k].name <==> j == k
  {
    GeneratedRecord(totalTokens, j);
    GeneratedRecord(totalTokens, k);
    NameInjective(j + 1, k + 1);
  }

  // ---------------------------------------------------------------------------
  // Files

  /** The file that the record with the given 1-based ordinal is written to. */
  function FilePath(ordinal: nat): string {
    Directory + "/" + NatToDecimal(ordinal)
  }

  /** Reads the ordinal back out of a path; `None` for other paths. */
  function PathOrdinal(path: string): Option<nat> {
    var prefix := Directory + "/";
    if |prefix| <= |path| && path[..|prefix|] == prefix
    then ParseDecimal(path[|prefix|..])
    else None
  }

  lemma PathOrdinalRoundTrip(ordinal: nat, path: string)
    ensures PathOrdinal(FilePath(ordinal)) == Some(ordinal)
    ensures PathOrdinal(path) == Some(ordinal) <==> path == FilePath(ordinal)
  {
    var prefix := Directory + "/";
    var s := FilePath(ordinal);
    assert s[..|prefix|] == prefix && s[|prefix|..] == NatToDecimal(ordinal);
    ParseDecimalRoundTrip(ordinal, NatToDecimal(ordinal));
    if |prefix| <= |path| && path[..|prefix|] == prefix {
      ParseDecimalRoundTrip(ordinal, path[|prefix|..]);
      assert path == path[..|prefix|] + path[|prefix|..];
    }
  }

  /** The write requests for a list, in list order: position `k` goes to the
      file named by `k + 1`. */
  function FileEntries(metadataList: seq<Metadata>): seq<FileWrite> {
    seq(|metadataList|, k requires 0 <= k < |metadataList| =>
      FileWrite(FilePath(k + 1), metadataList[k]))
  }

  /** One write per record, in list order, each carrying its record unchanged,
      to a path whose ordinal is the record's 1-based position; no two writes
      share a path. */
  lemma FileEntriesOnePerRecord(metadataList: seq<Metadata>)
    ensures |FileEntries(metadataList)| == |metadataList|
    ensures forall k :: 0 <= k < |metadataList| ==>
      FileEntries(metadataList)[k].content == metadataList[k] &&
      PathOrdinal(FileEntries(metadataList)[k].path) == Some(k + 1)
    ensures DistinctPaths(FileEntries(metadataList))
  {
    var e := FileEntries(metadataList);
    forall k | 0 <= k < |metadataList|
      ensures PathOrdinal(e[k].path) == Some(k + 1)
    {
      PathOrdinalRoundTrip(k + 1, e[k].path);
    }
    forall j, k | 0 <= j < k < |metadataList|
      ensures e[j].path != e[k].path
    {
      PathOrdinalRoundTrip(j + 1, e[k].path);
      PathOrdinalRoundTrip(k + 1, e[k].path);
    }
  }

  /** For a generated list, every file's ordinal is the ordinal in the name of
      the record written to it. */
  lemma FileOrdinalMatchesName(totalTokens: int, k: int)
    requires 0 <= k < RecordCount(totalTokens)
    ensures k < |FileEntries(Generated(totalTokens))|
    ensures PathOrdinal(FileEntries(Generated(totalTokens))[k].path) ==
      NameOrdinal(FileEntries(Generated(totalTokens))[k].content.name) == Some(k + 1)
  {
    GeneratedRecord(totalTokens, k);
    FileEntriesOnePerRecord(Generated(totalTokens));
  }

  /** The `forEach` of `saveMetadataToFile`: the write requests it issues, in
      the order it issues them. */
  method SaveMetadataToFile(metadataList: seq<Metadata>) returns (writes: seq<FileWrite>)
    ensures writes == FileEntries(metadataList)
  {
    writes := [];
    var index := 0;
    while index < |metadataList|
      invariant 0 <= index <= |metadataList|
      invariant writes == FileEntries(metadataList)[..index]
    {
      writes := writes + [FileWrite(Directory + "/" + NatToDecimal(index + 1), metadataList[index])];
      index := index + 1;
    }
  }

  /** The files a directory holds once the given writes have completed. */
  function ApplyWrites(files: map<string, Metadata>, writes: seq<FileWrite>): map<string, Metadata>
    decreases |writes|
  {
    if writes == [] then files
    else ApplyWrites(files[writes[0].path := writes[0].content], writes[1..])
  }

  predicate DistinctPaths(writes: seq<FileWrite>) {
    forall j, k :: 0 <= j < k < |writes| ==> writes[j].path != writes[k].path
  }

  /** The paths a sequence of writes touches. */
  function Paths(writes: seq<FileWrite>): set<string> {
    set k | 0 <= k < |writes| :: writes[k].path
  }

  /** With distinct paths, every write's file ends up holding that write's
      content, and every other file is left as it was. */
  lemma {:induction false} ApplyDistinctWrites(files: map<string, Metadata>, writes: seq<FileWrite>)
    requires DistinctPaths(writes)
    ensures forall k :: 0 <= k < |writes| ==>
      writes[k].path in ApplyWrites(files, writes) &&
      ApplyWrites(files, writes)[writes[k].path] == writes[k].content
    ensures forall p :: p !in Paths(writes) ==>
      (p in ApplyWrites(files, writes) <==> p in files) &&
      (p in files ==> ApplyWrites(files, writes)[p] == files[p])
    decreases |writes|
  {
    if writes != [] {
      var next := files[writes[0].path := writes[0].content];
      var rest := writes[1..];
      var after := ApplyWrites(files, writes);
      assert after == ApplyWrites(next, rest);
      assert DistinctPaths(rest);
      ApplyDistinctWrites(next, rest);
      assert writes[0].path !in Paths(rest);
      forall k | 0 <= k < |writes|
        ensures writes[k].path in after && after[writes[k].path] == writes[k].content
      {
        if k > 0 {
          assert writes[k] == rest[k - 1];
        }
      }
      forall p | p !in Paths(writes)
        ensures (p in after <==> p in files) && (p in files ==> after[p] == files[p])
      {
        assert writes[0].path != p;
        assert p !in Paths(rest);
      }
    }
  }

  /** A path of the form `./metadata/<n>` with `1 <= n <= count`. */
  predicate NumberedWithin(path: string, count: nat) {
    var o := PathOrdinal(path);
    o.Some? && 1 <= o.value <= count
  }

  /** Saving a list: file `./metadata/<k+1>` ends up holding record `k`. */
  lemma SavedFileHoldsRecord(files: map<string, Metadata>, metadataList: seq<Metadata>, k: int)
    requires 0 <= k < |metadataList|
    ensures FilePath(k + 1) in ApplyWrites(files, FileEntries(metadataList))
    ensures ApplyWrites(files, FileEntries(metadataList))[FilePath(k + 1)] == metadataList[k]
  {
    var e := FileEntries(metadataList);
    FileEntriesOnePerRecord(metadataList);
    ApplyDistinctWrites(files, e);
    assert e[k].path == FilePath(k + 1) && e[k].content == metadataList[k];
  }

  /** Saving a list of `n` records touches no file but `./metadata/1` to
      `./metadata/<n>`: every other file keeps what it held. */
  lemma SavedFilesKeepOthers(files: map<string, Metadata>, metadataList: seq<Metadata>)
    ensures forall p :: !NumberedWithin(p, |metadataList|) ==>
      (p in ApplyWrites(files, FileEntries(metadataList)) <==> p in files) &&
      (p in files ==> ApplyWrites(files, FileEntries(metadataList))[p] == files[p])
  {
    var e := FileEntries(metadataList);
    FileEntriesOnePerRecord(metadataList);
    ApplyDistinctWrites(files, e);
    forall p | p in Paths(e)
      ensures NumberedWithin(p, |metadataList|)
    {
      var i :| 0 <= i < |e| && e[i].path == p;
      PathOrdinalRoundTrip(i + 1, p);
    }
  }

  /** The entry point: generate `TotalTokens` records and save them. */
  method RunGenerator() returns (writes: seq<FileWrite>)
    ensures writes == FileEntries(Generated(TotalTokens))
    ensures |writes| == 6000
    ensures writes[0] == FileWrite("./metadata/1", RecordFor(1))
    ensures writes[5999] == FileWrite("./metadata/6000", RecordFor(6000))
    ensures RecordFor(6000).name == "HoneyGenesis #6000"
  {
    var metadataList := GenerateMetadata(TotalTokens);
    writes := SaveMetadataToFile(metadataList);
  }
}
