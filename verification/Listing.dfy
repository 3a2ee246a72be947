/** NUL-framed answers from a host, parsed from however much of them arrived. */
module Listing {
  import Ordering

  type Bytes = seq<bv8>

  const MAX_ENTRIES: nat := 500
  const MAX_OUTPUT_BYTES: nat := 64 * 1024

  datatype Kind = Directory | File | Other
  datatype Entry = Entry(kind: Kind, name: Bytes)

  /** Which byte strings are UTF-8. */
  type Encoding = Bytes -> bool

  // ----- splitting -----

  /** What precedes and includes the last terminator. */
  function Terminated(output: Bytes): Bytes {
    if output == [] || output[|output| - 1] == 0 then output else Terminated(output[..|output| - 1])
  }

  /** Every field between terminators, with what follows the last one. */
  function Segments(output: Bytes, partial: Bytes): seq<Bytes>
    decreases |output|
  {
    if output == [] then [partial]
    else if output[0] == 0 then [partial] + Segments(output[1..], [])
    else Segments(output[1..], partial + [output[0]])
  }

  function NonEmpty(fields: seq<Bytes>): seq<Bytes> {
    if fields == [] then []
    else (if fields[0] == [] then [] else [fields[0]]) + NonEmpty(fields[1..])
  }

  function SplitNul(output: Bytes): seq<Bytes> {
    NonEmpty(Segments(Terminated(output), []))
  }

  /** The same fields read from the front: a field counts when its terminator arrives. */
  function Fields(output: Bytes, partial: Bytes): seq<Bytes>
    decreases |output|
  {
    if output == [] then []
    else if output[0] == 0 then (if partial == [] then [] else [partial]) + Fields(output[1..], [])
    else Fields(output[1..], partial + [output[0]])
  }

  lemma {:induction false} UnterminatedIsNoField(text: Bytes, partial: Bytes)
    requires 0 !in text
    ensures Fields(text, partial) == []
    decreases |text|
  {
    if text != [] {
      UnterminatedIsNoField(text[1..], partial + [text[0]]);
    }
  }

  lemma {:induction false} TerminatedStep(head: bv8, tail: Bytes)
    ensures Terminated([head] + tail)
         == if head == 0 || Terminated(tail) != [] then [head] + Terminated(tail) else []
  {
    var output := [head] + tail;
    if tail == [] {
      assert output == [head] && output[..0] == [];
    } else {
      var front := tail[..|tail| - 1];
      assert output[|output| - 1] == tail[|tail| - 1] && output[..|output| - 1] == [head] + front;
      TerminatedStep(head, front);
    }
  }

  lemma {:induction false} SegmentsAreFields(output: Bytes, partial: Bytes)
    ensures NonEmpty(Segments(Terminated(output), if Terminated(output) == [] then [] else partial))
         == Fields(output, partial)
    decreases |output|
  {
    if output == [] {
      assert NonEmpty([[]]) == [];
    } else {
      var head, tail := output[0], output[1..];
      assert output == [head] + tail;
      TerminatedStep(head, tail);
      if head == 0 {
        SegmentsAreFields(tail, []);
        var rest := Segments(Terminated(tail), []);
        assert ([partial] + rest)[1..] == rest;
        assert ([head] + Terminated(tail))[1..] == Terminated(tail);
      } else {
        SegmentsAreFields(tail, partial + [head]);
        assert ([head] + Terminated(tail))[1..] == Terminated(tail);
        assert NonEmpty([[]]) == [];
      }
    }
  }

  /** Cutting at the last terminator and splitting is reading fields as their terminators arrive. */
  lemma SplitReadsTerminatedFields(output: Bytes)
    ensures SplitNul(output) == Fields(output, [])
  {
    SegmentsAreFields(output, []);
  }

  // ----- parsing -----

  function KindOf(field: Bytes): Kind {
    if field == [0x64] then Directory else if field == [0x66] then File else Other
  }

  function Paired(fields: seq<Bytes>, utf8: Encoding): seq<Entry> {
    if |fields| < 2 then []
    else (if utf8(fields[1]) then [Entry(KindOf(fields[0]), fields[1])] else []) + Paired(fields[2..], utf8)
  }

  function First(entries: seq<Entry>): seq<Entry> {
    if |entries| <= MAX_ENTRIES then entries else entries[..MAX_ENTRIES]
  }

  lemma PairedStep(fields: seq<Bytes>, i: nat, utf8: Encoding) returns (step: seq<Entry>)
    requires i + 1 < |fields|
    ensures step == if utf8(fields[i + 1]) then [Entry(KindOf(fields[i]), fields[i + 1])] else []
    ensures Paired(fields[i..], utf8) == step + Paired(fields[i + 2..], utf8)
  {
    step := if utf8(fields[i + 1]) then [Entry(KindOf(fields[i]), fields[i + 1])] else [];
    assert fields[i..][2..] == fields[i + 2..];
  }

  lemma Reassociate(a: seq<Entry>, b: seq<Entry>, c: seq<Entry>)
    ensures a + (b + c) == a + b + c
  {
  }

  /** Entries of a directory listing, and whether there may be more. */
  method ParseEntries(output: Bytes, utf8: Encoding) returns (entries: seq<Entry>, truncated: bool)
    ensures var all := Paired(Fields(output, []), utf8); entries == First(all) && truncated == (|all| >= MAX_ENTRIES)
  {
    SplitReadsTerminatedFields(output);
    var fields := SplitNul(output);
    entries := [];
    var i := 0;
    while i + 1 < |fields|
      invariant i <= |fields| && Paired(fields, utf8) == entries + Paired(fields[i..], utf8)
    {
      var kind, name := fields[i], fields[i + 1];
      ghost var step := PairedStep(fields, i, utf8);
      ghost var before, rest := entries, Paired(fields[i + 2..], utf8);
      if utf8(name) {
        entries := entries + [Entry(KindOf(kind), name)];
      }
      assert entries == before + step;
      Reassociate(before, step, rest);
      i := i + 2;
    }
    truncated := |entries| >= MAX_ENTRIES;
    if truncated {
      entries := entries[..MAX_ENTRIES];
    }
  }

  function Relative(path: Bytes): Bytes {
    if [0x2e, 0x2f] <= path then path[2..] else path
  }

  function Found(paths: seq<Bytes>, utf8: Encoding): seq<Entry> {
    if paths == [] then []
    else
      var name := Relative(paths[0]);
      (if utf8(paths[0]) && name != [] then [Entry(File, name)] else []) + Found(paths[1..], utf8)
  }

  lemma FoundStep(paths: seq<Bytes>, i: nat, utf8: Encoding) returns (step: seq<Entry>)
    requires i < |paths|
    ensures var name := Relative(paths[i]);
            step == if utf8(paths[i]) && name != [] then [Entry(File, name)] else []
    ensures Found(paths[i..], utf8) == step + Found(paths[i + 1..], utf8)
  {
    var name := Relative(paths[i]);
    step := if utf8(paths[i]) && name != [] then [Entry(File, name)] else [];
    assert paths[i..][1..] == paths[i + 1..];
  }

  /** A path is shown without the "./" a search puts before it, and otherwise as it is. */
  lemma RelativeMeans(rest: Bytes)
    ensures Relative([0x2e, 0x2f] + rest) == rest
    ensures !([0x2e, 0x2f] <= rest) ==> Relative(rest) == rest
  {
  }

  lemma {:induction false} FoundComeFrom(paths: seq<Bytes>, utf8: Encoding, e: Entry)
    ensures e in Found(paths, utf8) <==>
      e.kind == File && e.name != [] && exists i :: 0 <= i < |paths| && utf8(paths[i]) && Relative(paths[i]) == e.name
  {
    if paths != [] {
      FoundComeFrom(paths[1..], utf8, e);
      assert forall i | 0 < i < |paths| :: paths[i] == paths[1..][i - 1];
      if i :| 0 <= i < |paths[1..]| && utf8(paths[1..][i]) && Relative(paths[1..][i]) == e.name {
        assert paths[i + 1] == paths[1..][i];
      }
    }
  }

  /** Entries of a search, and whether there may be more. */
  method ParsePaths(output: Bytes, utf8: Encoding) returns (entries: seq<Entry>, truncated: bool)
    ensures var all := Found(Fields(output, []), utf8); entries == First(all) && truncated == (|all| >= MAX_ENTRIES)
  {
    SplitReadsTerminatedFields(output);
    var fields := SplitNul(output);
    entries := [];
    for i := 0 to |fields|
      invariant Found(fields, utf8) == entries + Found(fields[i..], utf8)
    {
      var name := Relative(fields[i]);
      ghost var step := FoundStep(fields, i, utf8);
      ghost var before, rest := entries, Found(fields[i + 1..], utf8);
      if utf8(fields[i]) && name != [] {
        entries := entries + [Entry(File, name)];
      }
      assert entries == before + step;
      Reassociate(before, step, rest);
    }
    truncated := |entries| >= MAX_ENTRIES;
    if truncated {
      entries := entries[..MAX_ENTRIES];
    }
  }

  // ----- what the host printed -----

  function KindByte(kind: Kind): bv8 {
    match kind
    case Directory => 0x64
    case File => 0x66
    case Other => 0x6f
  }

  /** A listing marks directories with a `d` and files with an `f`, and whatever else stands there is neither. */
  lemma KindsSpelled(field: Bytes)
    ensures KindOf(field) == Directory <==> field == ['d' as bv8]
    ensures KindOf(field) == File <==> field == ['f' as bv8]
    ensures KindByte(Directory) == 'd' as bv8 && KindByte(File) == 'f' as bv8 && KindByte(Other) == 'o' as bv8
  {
  }

  predicate Name(name: Bytes) { name != [] && 0 !in name }

  predicate Nameable(records: seq<Entry>) {
    forall i | 0 <= i < |records| :: Name(records[i].name)
  }

  function Framed(record: Entry): Bytes {
    [KindByte(record.kind), 0] + record.name + [0]
  }

  function Encoded(records: seq<Entry>): Bytes {
    if records == [] then [] else Framed(records[0]) + Encoded(records[1..])
  }

  /** How many records lie wholly within the first `n` bytes. */
  function Whole(records: seq<Entry>, n: nat): (k: nat)
    ensures k <= |records|
    decreases |records|
  {
    if records == [] || n < |Framed(records[0])| then 0
    else 1 + Whole(records[1..], n - |Framed(records[0])|)
  }

  function Readable(records: seq<Entry>, utf8: Encoding): seq<Entry> {
    if records == [] then []
    else (if utf8(records[0].name) then [records[0]] else []) + Readable(records[1..], utf8)
  }

  lemma {:induction false} FieldEnds(text: Bytes, rest: Bytes, partial: Bytes)
    requires 0 !in text && partial + text != []
    ensures Fields(text + [0] + rest, partial) == [partial + text] + Fields(rest, [])
    decreases |text|
  {
    var output := text + [0] + rest;
    if text == [] {
      assert output == [0] + rest && output[1..] == rest && partial + text == partial;
    } else {
      assert output[1..] == text[1..] + [0] + rest;
      FieldEnds(text[1..], rest, partial + [text[0]]);
      assert partial + [text[0]] + text[1..] == partial + text;
    }
  }

  lemma RecordEnds(record: Entry, rest: Bytes)
    requires Name(record.name)
    ensures Fields(Framed(record) + rest, []) == [[KindByte(record.kind)], record.name] + Fields(rest, [])
  {
    var kind := [KindByte(record.kind)];
    assert Framed(record) + rest == kind + [0] + (record.name + [0] + rest);
    FieldEnds(kind, record.name + [0] + rest, []);
    FieldEnds(record.name, rest, []);
    assert [] + kind == kind && [] + record.name == record.name;
    assert [kind] + ([record.name] + Fields(rest, [])) == [kind, record.name] + Fields(rest, []);
  }

  /** A record that is cut leaves at most its kind behind. */
  lemma CutRecordPairsNothing(record: Entry, n: nat)
    requires Name(record.name) && n < |Framed(record)|
    ensures |Fields(Framed(record)[..n], [])| <= 1
  {
    var kind, cut := [KindByte(record.kind)], Framed(record)[..n];
    if n < 2 {
      assert cut == kind[..n];
      UnterminatedIsNoField(cut, []);
    } else {
      var text := record.name[..n - 2];
      assert cut == kind + [0] + text;
      FieldEnds(kind, text, []);
      UnterminatedIsNoField(text, []);
    }
  }

  lemma TwoFieldsPair(kind: Bytes, name: Bytes, fields: seq<Bytes>, utf8: Encoding)
    ensures Paired([kind, name] + fields, utf8)
         == (if utf8(name) then [Entry(KindOf(kind), name)] else []) + Paired(fields, utf8)
  {
    var all := [kind, name] + fields;
    assert all[2..] == fields && all[0] == kind && all[1] == name;
  }

  lemma KindReadsBack(kind: Kind)
    ensures KindOf([KindByte(kind)]) == kind
  {
  }

  lemma RecordIsPaired(record: Entry, fields: seq<Bytes>, utf8: Encoding)
    ensures Paired([[KindByte(record.kind)], record.name] + fields, utf8)
         == (if utf8(record.name) then [record] else []) + Paired(fields, utf8)
  {
    KindReadsBack(record.kind);
    TwoFieldsPair([KindByte(record.kind)], record.name, fields, utf8);
  }

  lemma RecordIsReadable(records: seq<Entry>, k: nat, utf8: Encoding)
    requires records != [] && k < |records|
    ensures Readable(records[..1 + k], utf8)
         == (if utf8(records[0].name) then [records[0]] else []) + Readable(records[1..][..k], utf8)
  {
    assert records[..1 + k][1..] == records[1..][..k];
  }

  /** However the bytes are cut, the pairs read are the readable records that arrived whole. */
  lemma {:induction false} PrefixPairsWholeRecords(records: seq<Entry>, n: nat, utf8: Encoding)
    requires Nameable(records) && n <= |Encoded(records)|
    ensures Paired(Fields(Encoded(records)[..n], []), utf8) == Readable(records[..Whole(records, n)], utf8)
    decreases |records|
  {
    if records == [] {
      assert Encoded(records)[..n] == [];
    } else {
      var record, rest := records[0], records[1..];
      var m := |Framed(record)|;
      if n < m {
        assert Encoded(records)[..n] == Framed(record)[..n];
        CutRecordPairsNothing(record, n);
      } else {
        var cut := Encoded(rest)[..n - m];
        assert Encoded(records)[..n] == Framed(record) + cut;
        PrefixPairsWholeRecords(rest, n - m, utf8);
        RecordEnds(record, cut);
        RecordIsPaired(record, Fields(cut, []), utf8);
        RecordIsReadable(records, Whole(rest, n - m), utf8);
      }
    }
  }

  // ----- a search, answered -----

  predicate AllNames(paths: seq<Bytes>) {
    forall i | 0 <= i < |paths| :: Name(paths[i])
  }

  function Terminating(paths: seq<Bytes>): Bytes {
    if paths == [] then [] else paths[0] + [0] + Terminating(paths[1..])
  }

  function WholePaths(paths: seq<Bytes>, n: nat): (k: nat)
    ensures k <= |paths|
    decreases |paths|
  {
    if paths == [] || n <= |paths[0]| then 0 else 1 + WholePaths(paths[1..], n - |paths[0]| - 1)
  }

  /** However the bytes are cut, the fields read are the paths that arrived whole. */
  lemma {:induction false} PrefixFindsWholePaths(paths: seq<Bytes>, n: nat)
    requires AllNames(paths) && n <= |Terminating(paths)|
    ensures Fields(Terminating(paths)[..n], []) == paths[..WholePaths(paths, n)]
    decreases |paths|
  {
    if paths == [] {
      assert Terminating(paths)[..n] == [];
    } else {
      var path, rest := paths[0], paths[1..];
      if n <= |path| {
        assert Terminating(paths)[..n] == path[..n];
        UnterminatedIsNoField(path[..n], []);
      } else {
        var m := n - |path| - 1;
        assert Terminating(paths)[..n] == path + [0] + Terminating(rest)[..m];
        FieldEnds(path, Terminating(rest)[..m], []);
        PrefixFindsWholePaths(rest, m);
        assert [] + path == path && [path] + rest[..WholePaths(rest, m)] == paths[..1 + WholePaths(rest, m)];
      }
    }
  }

  // ----- a directory, listed -----

  /** What the listing script prints: it stops after its five-hundredth entry. */
  function Printed(directory: seq<Entry>): seq<Entry> {
    First(directory)
  }

  function Delivered(output: Bytes): Bytes {
    if |output| <= MAX_OUTPUT_BYTES then output else output[..MAX_OUTPUT_BYTES]
  }

  lemma {:induction false} WholeOfAll(records: seq<Entry>, n: nat)
    ensures Whole(records, n) == |records| <==> |Encoded(records)| <= n
  {
    if records != [] && |Framed(records[0])| <= n {
      WholeOfAll(records[1..], n - |Framed(records[0])|);
    }
  }

  predicate AllUtf8(records: seq<Entry>, utf8: Encoding) {
    forall i | 0 <= i < |records| :: utf8(records[i].name)
  }

  /** Reading leaves names out, and leaves none out exactly when every name is UTF-8. */
  lemma {:induction false} ReadableIsShorter(records: seq<Entry>, utf8: Encoding)
    ensures |Readable(records, utf8)| <= |records|
    ensures |Readable(records, utf8)| == |records| <==> AllUtf8(records, utf8)
  {
    if records != [] {
      var rest := records[1..];
      ReadableIsShorter(rest, utf8);
      assert AllUtf8(records, utf8) <==> utf8(records[0].name) && AllUtf8(rest, utf8) by {
        assert forall i | 0 < i < |records| :: records[i] == rest[i - 1];
      }
    }
  }

  /** What a client is shown: entries, and a flag that is to say whether there were more. */
  datatype Answer = Answer(entries: seq<Entry>, truncated: bool) {
    /** The flag tells an answer that leaves entries out from one that does not. */
    predicate TellsMore(there: nat) { truncated <==> |entries| < there }
  }

  function Listed(directory: seq<Entry>, utf8: Encoding): Answer {
    var whole := Whole(Printed(directory), |Delivered(Encoded(Printed(directory)))|);
    var entries := Readable(directory[..whole], utf8);
    Answer(entries, |entries| == MAX_ENTRIES)
  }

  /**
   * The flag of a listing is right exactly when the directory does not hold exactly five hundred
   * entries, the listing fits the byte limit, and every name printed is UTF-8.
   */
  lemma ListedTellsMoreExactly(directory: seq<Entry>, utf8: Encoding)
    ensures Listed(directory, utf8).TellsMore(|directory|) <==>
            && |directory| != MAX_ENTRIES
            && |Encoded(Printed(directory))| <= MAX_OUTPUT_BYTES
            && AllUtf8(Printed(directory), utf8)
  {
    var n := |Delivered(Encoded(Printed(directory)))|;
    var whole := Whole(Printed(directory), n);
    assert Printed(directory)[..whole] == directory[..whole];
    ReadableIsShorter(directory[..whole], utf8);
    WholeOfAll(Printed(directory), n);
  }

  /** A directory of one entry whose name cannot be read is shown as an empty one, and nothing says otherwise. */
  lemma UnreadableNameMisleads(name: Bytes, utf8: Encoding)
    requires !utf8(name)
    ensures var directory, answer := [Entry(File, name)], Listed([Entry(File, name)], utf8);
      answer == Answer([], false) && !answer.TellsMore(|directory|)
  {
    var directory := [Entry(File, name)];
    var whole := Whole(directory, |Delivered(Encoded(directory))|);
    ReadableIsShorter(directory[..whole], utf8);
    assert directory[0].name == name;
    assert whole == 1 ==> directory[..whole] == directory;
    assert Readable(directory[..whole], utf8) == [];
  }

  /** List a directory whose entries are these. */
  method List(directory: seq<Entry>, utf8: Encoding) returns (entries: seq<Entry>, truncated: bool)
    requires Nameable(directory)
    ensures Answer(entries, truncated) == Listed(directory, utf8)
    ensures var whole := Whole(Printed(directory), |Delivered(Encoded(Printed(directory)))|);
            entries == Readable(directory[..whole], utf8)
    ensures truncated <==> |entries| == MAX_ENTRIES
    ensures (truncated <==> |entries| < |directory|) <==>
            && |directory| != MAX_ENTRIES
            && |Encoded(Printed(directory))| <= MAX_OUTPUT_BYTES
            && AllUtf8(Printed(directory), utf8)
  {
    var output := Encoded(Printed(directory));
    entries, truncated := ParseEntries(Delivered(output), utf8);
    var n := |Delivered(output)|;
    assert Delivered(output) == output[..n];
    PrefixPairsWholeRecords(Printed(directory), n, utf8);
    var whole := Whole(Printed(directory), n);
    assert Printed(directory)[..whole] == directory[..whole];
    ReadableIsShorter(directory[..whole], utf8);
    ListedTellsMoreExactly(directory, utf8);
  }

  // ----- entries by name -----

  predicate ByteLess(a: bv8, b: bv8) { a < b }

  predicate NameLess(a: Entry, b: Entry) { Ordering.Lex(ByteLess, a.name, b.name) }

  /** A stable insertion: behind every entry whose name is not greater. */
  function Inserted(entries: seq<Entry>, entry: Entry): seq<Entry> {
    if entries == [] || !NameLess(entry, entries[|entries| - 1]) then entries + [entry]
    else Inserted(entries[..|entries| - 1], entry) + [entries[|entries| - 1]]
  }

  function ByName(entries: seq<Entry>): seq<Entry> {
    if entries == [] then [] else Inserted(ByName(entries[..|entries| - 1]), entries[|entries| - 1])
  }

  /** No entry has a smaller name than one before it. */
  ghost predicate InOrder(entries: seq<Entry>) {
    forall i, j | 0 <= i < j < |entries| :: !NameLess(entries[j], entries[i])
  }

  lemma NotLessTransitive(a: Entry, b: Entry, c: Entry)
    requires !NameLess(b, a) && !NameLess(c, b)
    ensures !NameLess(c, a)
  {
    assert Ordering.StrictTotal(ByteLess);
    Ordering.LexTrichotomy(ByteLess, a.name, b.name);
    Ordering.LexTrichotomy(ByteLess, b.name, c.name);
    if NameLess(c, a) {
      if a.name != b.name {
        Ordering.LexTransitive(ByteLess, c.name, a.name, b.name);
      }
    }
  }

  lemma LessNotBack(a: Entry, b: Entry)
    requires NameLess(a, b)
    ensures !NameLess(b, a)
  {
    assert Ordering.StrictTotal(ByteLess);
    Ordering.LexTrichotomy(ByteLess, a.name, a.name);
    if NameLess(b, a) {
      Ordering.LexTransitive(ByteLess, a.name, b.name, a.name);
    }
  }

  lemma {:induction false} InsertedIsSorted(entries: seq<Entry>, entry: Entry)
    requires InOrder(entries)
    ensures InOrder(Inserted(entries, entry))
    ensures multiset(Inserted(entries, entry)) == multiset(entries) + multiset{entry}
  {
    if entries != [] {
      var front, last := entries[..|entries| - 1], entries[|entries| - 1];
      assert entries == front + [last];
      if NameLess(entry, last) {
        InsertedIsSorted(front, entry);
        LessNotBack(entry, last);
        var inserted := Inserted(front, entry);
        forall i | 0 <= i < |inserted| ensures !NameLess(last, inserted[i]) {
          assert inserted[i] in multiset(inserted);
          assert inserted[i] == entry || inserted[i] in front;
        }
      } else {
        forall i | 0 <= i < |entries| ensures !NameLess(entry, entries[i]) {
          if i < |entries| - 1 {
            NotLessTransitive(entries[i], last, entry);
          }
        }
      }
    }
  }

  /** Sorting by name keeps the entries and puts them in order. */
  lemma {:induction false} ByNameSorts(entries: seq<Entry>)
    ensures InOrder(ByName(entries)) && multiset(ByName(entries)) == multiset(entries)
  {
    if entries != [] {
      var front, last := entries[..|entries| - 1], entries[|entries| - 1];
      assert entries == front + [last];
      ByNameSorts(front);
      InsertedIsSorted(ByName(front), last);
    }
  }

  lemma ByNameCounts(entries: seq<Entry>)
    ensures |ByName(entries)| == |entries|
  {
    ByNameSorts(entries);
    assert |multiset(ByName(entries))| == |multiset(entries)|;
  }

  // ----- a search, shown -----

  /** The paths of a search that arrive whole. */
  function Arrived(paths: seq<Bytes>): seq<Bytes> {
    paths[..WholePaths(paths, |Delivered(Terminating(paths))|)]
  }

  function Searched(paths: seq<Bytes>, utf8: Encoding): Answer {
    var found := Found(Arrived(paths), utf8);
    Answer(ByName(First(found)), |found| >= MAX_ENTRIES)
  }

  lemma {:induction false} WholePathsOfAll(paths: seq<Bytes>, n: nat)
    ensures WholePaths(paths, n) == |paths| <==> |Terminating(paths)| <= n
  {
    if paths != [] && |paths[0]| < n {
      WholePathsOfAll(paths[1..], n - |paths[0]| - 1);
    }
  }

  /** Paths that can be shown: UTF-8, and naming something below the root. */
  predicate AllShown(paths: seq<Bytes>, utf8: Encoding) {
    forall i | 0 <= i < |paths| :: utf8(paths[i]) && Relative(paths[i]) != []
  }

  /** A search leaves paths out, and leaves none out exactly when every path can be shown. */
  lemma {:induction false} FoundIsShorter(paths: seq<Bytes>, utf8: Encoding)
    ensures |Found(paths, utf8)| <= |paths|
    ensures |Found(paths, utf8)| == |paths| <==> AllShown(paths, utf8)
  {
    if paths != [] {
      var rest := paths[1..];
      FoundIsShorter(rest, utf8);
      assert AllShown(paths, utf8) <==> utf8(paths[0]) && Relative(paths[0]) != [] && AllShown(rest, utf8) by {
        assert forall i | 0 < i < |paths| :: paths[i] == rest[i - 1];
      }
    }
  }

  /** As many are found as there were paths exactly when all of them arrive and can be shown. */
  lemma AllFoundExactly(paths: seq<Bytes>, utf8: Encoding)
    ensures |Found(Arrived(paths), utf8)| <= |paths|
    ensures |Found(Arrived(paths), utf8)| == |paths|
       <==> |Terminating(paths)| <= MAX_OUTPUT_BYTES && AllShown(paths, utf8)
  {
    WholePathsOfAll(paths, |Delivered(Terminating(paths))|);
    FoundIsShorter(Arrived(paths), utf8);
    assert |Arrived(paths)| == |paths| ==> Arrived(paths) == paths;
  }

  /**
   * The flag of a search is right exactly when fewer than five hundred paths were found, they fit the
   * byte limit and can all be shown; or more than five hundred were, and five hundred that can be
   * shown arrive whole.
   */
  lemma SearchedTellsMoreExactly(paths: seq<Bytes>, utf8: Encoding)
    ensures Searched(paths, utf8).TellsMore(|paths|) <==>
            if |paths| > MAX_ENTRIES then |Found(Arrived(paths), utf8)| >= MAX_ENTRIES
            else |paths| < MAX_ENTRIES && |Terminating(paths)| <= MAX_OUTPUT_BYTES && AllShown(paths, utf8)
  {
    AllFoundExactly(paths, utf8);
    ByNameCounts(First(Found(Arrived(paths), utf8)));
  }

  /** Search a tree in which these paths match. */
  method Search(paths: seq<Bytes>, utf8: Encoding) returns (entries: seq<Entry>, truncated: bool)
    requires AllNames(paths)
    ensures Answer(entries, truncated) == Searched(paths, utf8)
    ensures InOrder(entries) && multiset(entries) == multiset(First(Found(Arrived(paths), utf8)))
    ensures (truncated <==> |entries| < |paths|) <==>
            if |paths| > MAX_ENTRIES then |Found(Arrived(paths), utf8)| >= MAX_ENTRIES
            else |paths| < MAX_ENTRIES && |Terminating(paths)| <= MAX_OUTPUT_BYTES && AllShown(paths, utf8)
  {
    var output := Terminating(paths);
    entries, truncated := ParsePaths(Delivered(output), utf8);
    var n := |Delivered(output)|;
    assert Delivered(output) == output[..n];
    PrefixFindsWholePaths(paths, n);
    ByNameSorts(entries);
    SearchedTellsMoreExactly(paths, utf8);
    entries := ByName(entries);
  }
}
