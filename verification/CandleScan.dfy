/**
 * Reading a candle file twice over: all at once, and in chunks as they arrive. Both accept the same files and produce
 * the same candles; the streaming fingerprint is the canonical one.
 */
module CandleScan {
  import opened Outcomes
  import opened CandleBytes
  import opened ResearchRows
  import ResearchManifest

  const BATCH: nat := 500
  const MAX_LINE: nat := 65536

  type Bytes = seq<byte>

  // `decode` reads one canonically encoded line; `fits` is what the manifest and the calendar ask of a candle alone.
  datatype Rules = Rules(decode: Bytes -> Option<Row>, fits: Row -> bool)

  function LastOf(candles: seq<Row>): Option<Row> {
    if candles == [] then None else Some(candles[|candles| - 1])
  }

  function LineCandle(rules: Rules, previous: Option<Row>, line: Bytes): Option<Row> {
    if line == [] then None
    else
      var decoded := rules.decode(line);
      if decoded.Some? && rules.fits(decoded.value) && (previous.Some? ==> Before(previous.value, decoded.value))
      then decoded else None
  }

  // The candles of a list of lines, if every line is good after the ones before it.
  function Parsed(rules: Rules, lines: seq<Bytes>): Option<seq<Row>> {
    if lines == [] then Some([])
    else
      var init := Parsed(rules, lines[..|lines| - 1]);
      if init.None? then None
      else
        var candle := LineCandle(rules, LastOf(init.value), lines[|lines| - 1]);
        if candle.Some? then Some(init.value + [candle.value]) else None
  }

  class ResearchCandleSequenceValidator {
    const rules: Rules
    var previous: Option<Row>

    constructor (rules: Rules)
      ensures this.rules == rules && previous == None
    {
      this.rules := rules;
      previous := None;
    }

    method ParseLine(line: Bytes) returns (candle: Option<Row>)
      modifies this
      ensures candle == LineCandle(rules, old(previous), line)
      ensures previous == if candle.Some? then candle else old(previous)
    {
      if line == [] {
        return None;
      }
      candle := rules.decode(line);
      if candle.None? || !rules.fits(candle.value) {
        return None;
      }
      if previous.Some? && !Before(previous.value, candle.value) {
        return None;
      }
      previous := candle;
    }
  }

  // ----- the whole file at once

  function WholeParse(rules: Rules, raw: Bytes): Option<seq<Row>> {
    if raw == [] || raw[|raw| - 1] != LF || StartsWithBom(raw) || !Utf8(raw) || CR in raw then None
    else Parsed(rules, Lines(raw))
  }

  lemma {:induction false} ParseFailsEarly(rules: Rules, lines: seq<Bytes>, k: nat)
    requires k <= |lines| && Parsed(rules, lines[..k]).None?
    ensures Parsed(rules, lines).None?
  {
    if k == |lines| {
      assert lines[..k] == lines;
    } else {
      assert lines[..|lines| - 1][..k] == lines[..k];
      ParseFailsEarly(rules, lines[..|lines| - 1], k);
    }
  }

  method ParseResearchCandles(rules: Rules, raw: Bytes) returns (parsed: Option<seq<Row>>)
    ensures parsed == WholeParse(rules, raw)
  {
    if raw == [] || raw[|raw| - 1] != LF || StartsWithBom(raw) || !Utf8(raw) || CR in raw {
      return None;
    }
    var init := raw[..|raw| - 1];
    var lines := Lines(init) + [Rest(init)];
    var validator := new ResearchCandleSequenceValidator(rules);
    var candles: seq<Row> := [];
    var i := 0;
    while i < |lines|
      invariant 0 <= i <= |lines| && validator.previous == LastOf(candles) && validator.rules == rules
      invariant Parsed(rules, lines[..i]) == Some(candles)
    {
      assert lines[..i + 1][..i] == lines[..i];
      var candle := validator.ParseLine(lines[i]);
      if candle.None? {
        ParseFailsEarly(rules, lines, i + 1);
        return None;
      }
      candles := candles + [candle.value];
      i := i + 1;
    }
    assert lines[..i] == lines == Lines(raw);
    return Some(candles);
  }

  // ----- what a file must be

  // A line is not empty, decodes to its candle and fits, and candles come by time, those of one time by contract.
  ghost predicate LineReads(rules: Rules, lines: seq<Bytes>, candles: seq<Row>, i: nat)
    requires i < |lines| == |candles|
  {
    && lines[i] != [] && rules.decode(lines[i]) == Some(candles[i]) && rules.fits(candles[i])
    && (i > 0 ==>
         candles[i - 1].ts < candles[i].ts
         || (candles[i - 1].ts == candles[i].ts && candles[i - 1].conId < candles[i].conId))
  }

  // Line by line.
  ghost predicate ReadsAs(rules: Rules, lines: seq<Bytes>, candles: seq<Row>) {
    |lines| == |candles| && forall i :: 0 <= i < |lines| ==> LineReads(rules, lines, candles, i)
  }

  // Lines ended by line feeds, without a byte order mark or a carriage return.
  ghost predicate FileOf(raw: Bytes, lines: seq<Bytes>) {
    && raw == Terminated(lines) && lines != [] && 0x0d !in raw && Utf8(raw)
    && !(|raw| >= 3 && raw[0] == 0xef && raw[1] == 0xbb && raw[2] == 0xbf)
    && forall i :: 0 <= i < |lines| ==> 0x0a !in lines[i]
  }

  lemma LastLineReads(rules: Rules, lines: seq<Bytes>, candles: seq<Row>)
    requires |lines| == |candles| > 0
    ensures var n := |lines| - 1;
      ReadsAs(rules, lines, candles)
      <==> ReadsAs(rules, lines[..n], candles[..n]) && LineReads(rules, lines, candles, n)
    ensures var n := |lines| - 1;
      LineReads(rules, lines, candles, n)
      <==> LineCandle(rules, LastOf(candles[..n]), lines[n]) == Some(candles[n])
  {
    var n := |lines| - 1;
    forall i | 0 <= i < n
      ensures LineReads(rules, lines, candles, i) <==> LineReads(rules, lines[..n], candles[..n], i)
    {
    }
  }

  lemma {:induction false} ParsedIff(rules: Rules, lines: seq<Bytes>, candles: seq<Row>)
    ensures Parsed(rules, lines) == Some(candles) <==> ReadsAs(rules, lines, candles)
  {
    if |lines| == |candles| > 0 {
      var n := |lines| - 1;
      ParsedIff(rules, lines[..n], candles[..n]);
      LastLineReads(rules, lines, candles);
      hide ReadsAs, LineReads, LineCandle;
      assert candles == candles[..n] + [candles[n]];
      ParsedStep(rules, lines, candles);
    } else {
      ParsedLength(rules, lines);
    }
  }

  lemma ParsedStep(rules: Rules, lines: seq<Bytes>, candles: seq<Row>)
    requires |lines| == |candles| > 0
    ensures var n := |lines| - 1;
      Parsed(rules, lines) == Some(candles) <==>
        && Parsed(rules, lines[..n]) == Some(candles[..n])
        && LineCandle(rules, LastOf(candles[..n]), lines[n]) == Some(candles[n])
  {
    hide LineCandle, LastOf;
    var n := |lines| - 1;
    assert candles == candles[..n] + [candles[n]];
    var init := Parsed(rules, lines[..n]);
    if init.Some? {
      var c := LineCandle(rules, LastOf(init.value), lines[n]);
      if c.Some? && init.value + [c.value] == candles {
        assert (init.value + [c.value])[..n] == init.value[..n];
        ParsedLength(rules, lines[..n]);
        assert init.value == candles[..n];
      }
    }
  }

  lemma {:induction false} ParsedLength(rules: Rules, lines: seq<Bytes>)
    ensures Parsed(rules, lines).Some? ==> |Parsed(rules, lines).value| == |lines|
  {
    hide LineCandle, LastOf;
    if lines != [] {
      ParsedLength(rules, lines[..|lines| - 1]);
    }
  }

  // The parser gives these candles exactly for a file of lines that read as them.
  lemma FileReadsAs(rules: Rules, raw: Bytes, candles: seq<Row>)
    ensures WholeParse(rules, raw) == Some(candles)
      <==> exists lines :: FileOf(raw, lines) && ReadsAs(rules, lines, candles)
  {
    hide Utf8, Parsed, ReadsAs, Lines, Rest, Terminated;
    if WholeParse(rules, raw) == Some(candles) {
      LinesMakeTheFile(raw);
      EndedFileHasNoRest(raw);
      ParsedIff(rules, Lines(raw), candles);
      assert Terminated(Lines(raw)) == raw;
      NoLinesNoFile(Lines(raw));
      assert FileOf(raw, Lines(raw));
    }
    if lines :| FileOf(raw, lines) && ReadsAs(rules, lines, candles) {
      ParsedIff(rules, lines, candles);
      TerminatedSplits(lines);
      EndsInLf(lines);
    }
  }

  lemma NoLinesNoFile(lines: seq<Bytes>)
    ensures lines == [] ==> Terminated(lines) == []
  {
  }

  lemma EndsInLf(lines: seq<Bytes>)
    requires lines != []
    ensures var raw := Terminated(lines); raw != [] && raw[|raw| - 1] == LF
  {
  }

  // ----- the fingerprint

  datatype Encoding = Encoding(
    header: Bytes, datasetRecord: Bytes, contract: ResearchManifest.Contract -> Bytes, candle: Row -> Bytes)

  function InsertContract(sorted: seq<ResearchManifest.Contract>, c: ResearchManifest.Contract)
    : seq<ResearchManifest.Contract>
  {
    if sorted == [] || sorted[|sorted| - 1].conId <= c.conId then sorted + [c]
    else InsertContract(sorted[..|sorted| - 1], c) + [sorted[|sorted| - 1]]
  }

  function SortContracts(contracts: seq<ResearchManifest.Contract>): seq<ResearchManifest.Contract> {
    if contracts == [] then []
    else InsertContract(SortContracts(contracts[..|contracts| - 1]), contracts[|contracts| - 1])
  }

  function ContractRecords(enc: Encoding, contracts: seq<ResearchManifest.Contract>): seq<Bytes> {
    seq(|contracts|, i requires 0 <= i < |contracts| => enc.contract(contracts[i]))
  }

  function CandleRecords(enc: Encoding, candles: seq<Row>): seq<Bytes> {
    seq(|candles|, i requires 0 <= i < |candles| => enc.candle(candles[i]))
  }

  function Joined(records: seq<Bytes>): Bytes {
    if records == [] then []
    else if |records| == 1 then records[0]
    else Joined(records[..|records| - 1]) + [LF] + records[|records| - 1]
  }

  // The records of a dataset joined by line feeds, with one at the end.
  function CanonicalFingerprintBytes(
    enc: Encoding, contracts: seq<ResearchManifest.Contract>, candles: seq<Row>): Bytes
  {
    Joined([enc.header, enc.datasetRecord] + ContractRecords(enc, SortContracts(contracts))
           + CandleRecords(enc, candles)) + [LF]
  }

  lemma {:induction false} JoinedTerminates(records: seq<Bytes>)
    requires records != []
    ensures Joined(records) + [LF] == Terminated(records)
  {
    if |records| == 1 {
      assert Terminated(records[..0]) == [];
    } else {
      JoinedTerminates(records[..|records| - 1]);
    }
  }

  // What the builder has hashed after `candles`.
  function Absorbed(enc: Encoding, contracts: seq<ResearchManifest.Contract>, candles: seq<Row>): Bytes {
    Terminated([enc.header, enc.datasetRecord] + ContractRecords(enc, SortContracts(contracts))
               + CandleRecords(enc, candles))
  }

  lemma AbsorbedIsCanonical(enc: Encoding, contracts: seq<ResearchManifest.Contract>, candles: seq<Row>)
    ensures Absorbed(enc, contracts, candles) == CanonicalFingerprintBytes(enc, contracts, candles)
  {
    JoinedTerminates([enc.header, enc.datasetRecord] + ContractRecords(enc, SortContracts(contracts))
                     + CandleRecords(enc, candles));
  }

  lemma AbsorbedAppends(enc: Encoding, contracts: seq<ResearchManifest.Contract>, candles: seq<Row>, c: Row)
    ensures Absorbed(enc, contracts, candles + [c]) == Absorbed(enc, contracts, candles) + enc.candle(c) + [LF]
  {
    var start := [enc.header, enc.datasetRecord] + ContractRecords(enc, SortContracts(contracts));
    assert CandleRecords(enc, candles + [c]) == CandleRecords(enc, candles) + [enc.candle(c)];
    assert start + CandleRecords(enc, candles + [c]) == start + CandleRecords(enc, candles) + [enc.candle(c)];
    TerminatedAppends(start + CandleRecords(enc, candles), enc.candle(c));
  }

  lemma TwoRecords(a: Bytes, b: Bytes)
    ensures Terminated([a, b]) == a + [LF] + b + [LF]
  {
    assert [a, b][..1] == [a];
    var none: seq<Bytes> := [];
    TerminatedAppends(none, a);
    assert none + [a] == [a];
  }

  class ResearchDatasetFingerprintBuilder {
    const enc: Encoding
    var absorbed: Bytes
    var digested: bool

    constructor (enc: Encoding, contracts: seq<ResearchManifest.Contract>)
      ensures this.enc == enc && !digested && absorbed == Absorbed(enc, contracts, [])
    {
      this.enc := enc;
      digested := false;
      var sorted := SortContracts(contracts);
      var start := [enc.header, enc.datasetRecord];
      var bytes := enc.header + [LF] + enc.datasetRecord + [LF];
      TwoRecords(enc.header, enc.datasetRecord);
      assert start + ContractRecords(enc, []) == start && sorted[..0] == [];
      var i := 0;
      while i < |sorted|
        invariant 0 <= i <= |sorted| && bytes == Terminated(start + ContractRecords(enc, sorted[..i]))
      {
        TerminatedAppends(start + ContractRecords(enc, sorted[..i]), enc.contract(sorted[i]));
        assert start + ContractRecords(enc, sorted[..i + 1])
            == start + ContractRecords(enc, sorted[..i]) + [enc.contract(sorted[i])];
        bytes := bytes + enc.contract(sorted[i]) + [LF];
        i := i + 1;
      }
      assert sorted[..i] == sorted;
      assert start + ContractRecords(enc, sorted) + CandleRecords(enc, []) == start + ContractRecords(enc, sorted);
      absorbed := bytes;
    }

    // Refuses once the digest has been taken.
    method UpdateCandle(c: Row) returns (ok: bool)
      modifies this
      ensures ok == !old(digested) && digested == old(digested)
      ensures absorbed == if ok then old(absorbed) + enc.candle(c) + [LF] else old(absorbed)
    {
      if digested {
        return false;
      }
      absorbed := absorbed + enc.candle(c) + [LF];
      return true;
    }

    method Digest(hash: Bytes -> Bytes) returns (digest: Option<Bytes>)
      modifies this
      ensures digested && absorbed == old(absorbed)
      ensures digest == if old(digested) then None else Some(hash(absorbed))
    {
      if digested {
        return None;
      }
      digested := true;
      return Some(hash(absorbed));
    }
  }

  // ----- the fingerprint does not depend on the order of the contracts

  ghost predicate ById(contracts: seq<ResearchManifest.Contract>) {
    forall i, j :: 0 <= i < j < |contracts| ==> contracts[i].conId < contracts[j].conId
  }

  ghost predicate SameContracts(a: seq<ResearchManifest.Contract>, b: seq<ResearchManifest.Contract>) {
    forall x :: x in a <==> x in b
  }

  lemma {:induction false} InsertKeepsById(sorted: seq<ResearchManifest.Contract>, c: ResearchManifest.Contract)
    requires ById(sorted) && forall x :: x in sorted ==> x.conId != c.conId
    ensures ById(InsertContract(sorted, c))
    ensures forall x :: x in InsertContract(sorted, c) <==> x in sorted || x == c
  {
    if sorted != [] {
      var init, top := sorted[..|sorted| - 1], sorted[|sorted| - 1];
      assert sorted == init + [top] && top in sorted;
      if c.conId < top.conId {
        InsertKeepsById(init, c);
        forall x | x in init
          ensures x.conId < top.conId
        {
          var j :| 0 <= j < |init| && init[j] == x;
          assert sorted[j] == x && sorted[|init|] == top;
        }
        AppendKeepsById(InsertContract(init, c), top);
      } else {
        AppendKeepsById(sorted, c);
      }
    }
  }

  lemma AppendKeepsById(sorted: seq<ResearchManifest.Contract>, c: ResearchManifest.Contract)
    requires ById(sorted)
    requires (forall x :: x in sorted ==> x.conId < c.conId)
             || (sorted != [] && sorted[|sorted| - 1].conId < c.conId)
    ensures ById(sorted + [c])
  {
    forall i | 0 <= i < |sorted|
      ensures sorted[i].conId < c.conId
    {
      assert sorted[i] in sorted;
    }
  }

  lemma {:induction false} SortedById(contracts: seq<ResearchManifest.Contract>)
    requires ResearchManifest.Distinct(ResearchManifest.IdsOf(contracts))
    ensures ById(SortContracts(contracts)) && SameContracts(SortContracts(contracts), contracts)
  {
    if contracts != [] {
      var init, last := contracts[..|contracts| - 1], contracts[|contracts| - 1];
      assert contracts == init + [last];
      forall i, j | 0 <= i < j < |init|
        ensures ResearchManifest.IdsOf(init)[i] != ResearchManifest.IdsOf(init)[j]
      {
        assert ResearchManifest.IdsOf(contracts)[i] != ResearchManifest.IdsOf(contracts)[j];
      }
      SortedById(init);
      forall x | x in SortContracts(init)
        ensures x.conId != last.conId
      {
        var i :| 0 <= i < |init| && init[i] == x;
        assert ResearchManifest.IdsOf(contracts)[i] != ResearchManifest.IdsOf(contracts)[|init|];
      }
      InsertKeepsById(SortContracts(init), last);
    }
  }

  lemma {:induction false} ByIdIsUnique(a: seq<ResearchManifest.Contract>, b: seq<ResearchManifest.Contract>)
    requires ById(a) && ById(b) && SameContracts(a, b)
    ensures a == b
  {
    if |a| == 0 {
      if |b| > 0 {
        HasContract(b);
      }
    } else if |b| == 0 {
      HasContract(a);
    } else {
      var x, y := a[|a| - 1], b[|b| - 1];
      assert x in a && y in b;
      LastIsLargest(a, y);
      LastIsLargest(b, x);
      WithoutLargest(a);
      WithoutLargest(b);
      SameWithout(a, b);
      ByIdIsUnique(a[..|a| - 1], b[..|b| - 1]);
    }
  }

  lemma HasContract(a: seq<ResearchManifest.Contract>)
    requires a != []
    ensures exists x :: x in a
  {
    assert a[0] in a;
  }

  lemma SameWithout(a: seq<ResearchManifest.Contract>, b: seq<ResearchManifest.Contract>)
    requires ById(a) && ById(b) && |a| > 0 && |b| > 0 && a[|a| - 1] == b[|b| - 1]
    requires SameContracts(a, b)
    ensures SameContracts(a[..|a| - 1], b[..|b| - 1])
  {
    WithoutLargest(a);
    WithoutLargest(b);
    var u, v, last := a[..|a| - 1], b[..|b| - 1], a[|a| - 1];
    forall x
      ensures x in u <==> x in v
    {
      assert x in u <==> x in a && x != last;
      assert x in v <==> x in b && x != last;
    }
  }

  lemma LastIsLargest(a: seq<ResearchManifest.Contract>, y: ResearchManifest.Contract)
    requires ById(a) && y in a
    ensures y == a[|a| - 1] || y.conId < a[|a| - 1].conId
  {
    var i :| 0 <= i < |a| && a[i] == y;
  }

  lemma WithoutLargest(a: seq<ResearchManifest.Contract>)
    requires ById(a) && a != []
    ensures ById(a[..|a| - 1]) && forall x :: x in a[..|a| - 1] <==> x in a && x != a[|a| - 1]
  {
    var init, last := a[..|a| - 1], a[|a| - 1];
    assert a == init + [last];
    forall x | x in init
      ensures x != last
    {
      var i :| 0 <= i < |init| && init[i] == x;
      assert a[i].conId < a[|a| - 1].conId;
    }
  }

  // The same contracts in any order give the same bytes, hence the same fingerprint.
  lemma FingerprintIgnoresContractOrder(
    enc: Encoding, a: seq<ResearchManifest.Contract>, b: seq<ResearchManifest.Contract>, candles: seq<Row>)
    requires ResearchManifest.Distinct(ResearchManifest.IdsOf(a))
    requires ResearchManifest.Distinct(ResearchManifest.IdsOf(b))
    requires SameContracts(a, b)
    ensures CanonicalFingerprintBytes(enc, a, candles) == CanonicalFingerprintBytes(enc, b, candles)
  {
    SortedById(a);
    SortedById(b);
    ByIdIsUnique(SortContracts(a), SortContracts(b));
  }

  // ----- the scan

  predicate LineHolds(line: Bytes, isFirst: bool) {
    CR !in line && (isFirst ==> !StartsWithBom(line)) && Utf8(line)
  }

  function Scanned(rules: Rules, lines: seq<Bytes>): Option<seq<Row>> {
    if lines == [] then Some([])
    else
      var init := Scanned(rules, lines[..|lines| - 1]);
      if init.None? || !LineHolds(lines[|lines| - 1], |lines| == 1) then None
      else
        var candle := LineCandle(rules, LastOf(init.value), lines[|lines| - 1]);
        if candle.Some? then Some(init.value + [candle.value]) else None
  }

  ghost predicate AllHold(lines: seq<Bytes>) {
    forall i :: 0 <= i < |lines| ==> LineHolds(lines[i], i == 0)
  }

  lemma {:induction false} ScannedIsParsed(rules: Rules, lines: seq<Bytes>)
    ensures Scanned(rules, lines) == if AllHold(lines) then Parsed(rules, lines) else None
  {
    hide LineHolds;
    if lines != [] {
      var init := lines[..|lines| - 1];
      ScannedIsParsed(rules, init);
      assert AllHold(lines) <==> AllHold(init) && LineHolds(lines[|lines| - 1], |lines| == 1) by {
        assert forall i :: 0 <= i < |init| ==> init[i] == lines[i];
      }
    }
  }

  // Checking an LF-terminated file line by line is checking it whole.
  lemma LinesHoldIff(raw: Bytes)
    requires raw != [] && raw[|raw| - 1] == LF
    ensures AllHold(Lines(raw)) <==> !StartsWithBom(raw) && Utf8(raw) && CR !in raw
  {
    LinesMakeTheFile(raw);
    Utf8IsPerLine(raw);
    CrIsPerLine(Lines(raw), Rest(raw));
    BomIsInTheFirstLine(Lines(raw));
    var lines := Lines(raw);
    assert Terminated(lines) == raw;
    hide Utf8, StartsWithBom, Lines, Rest, Terminated;
    forall i | 0 <= i < |lines|
      ensures lines[i] in lines
    {
    }
  }

  lemma ScanMeetsParse(rules: Rules, raw: Bytes)
    requires raw != [] && raw[|raw| - 1] == LF
    ensures Scanned(rules, Lines(raw)) == WholeParse(rules, raw)
  {
    LinesHoldIff(raw);
    ScannedIsParsed(rules, Lines(raw));
    hide Utf8, StartsWithBom, Lines, AllHold;
  }

  function Concat(chunks: seq<Bytes>): Bytes {
    if chunks == [] then [] else Concat(chunks[..|chunks| - 1]) + chunks[|chunks| - 1]
  }

  // No chunk ends further than 64 KiB into a line.
  ghost predicate CarriesHold(chunks: seq<Bytes>) {
    forall k :: 0 < k <= |chunks| ==> |Rest(Concat(chunks[..k]))| <= 65536
  }

  // The last chunk is not empty, so the reader knows the last byte of the file. A file stream only emits such chunks.
  predicate LastByteKnown(chunks: seq<Bytes>) {
    chunks != [] && chunks[|chunks| - 1] != []
  }

  function Flat(batches: seq<seq<Row>>): seq<Row> {
    if batches == [] then [] else Flat(batches[..|batches| - 1]) + batches[|batches| - 1]
  }

  ghost predicate FullBatches(batches: seq<seq<Row>>) {
    forall b :: b in batches ==> |b| == BATCH
  }

  lemma FlatAppends(batches: seq<seq<Row>>, b: seq<Row>)
    ensures Flat(batches + [b]) == Flat(batches) + b
  {
    assert (batches + [b])[..|batches|] == batches;
  }

  datatype ScanResult = ScanResult(fingerprint: Bytes, candlesCount: nat)

  // Where the scan stands after some complete lines.
  ghost predicate StandsAt(
    rules: Rules, enc: Encoding, contracts: seq<ResearchManifest.Contract>, lines: seq<Bytes>, candles: seq<Row>,
    previous: Option<Row>, absorbed: Bytes, batches: seq<seq<Row>>, batch: seq<Row>)
  {
    && Scanned(rules, lines) == Some(candles) && previous == LastOf(candles) && |candles| == |lines|
    && absorbed == Absorbed(enc, contracts, candles)
    && Flat(batches) + batch == candles && FullBatches(batches) && |batch| < BATCH
  }

  lemma OneLineMore(
    rules: Rules, enc: Encoding, contracts: seq<ResearchManifest.Contract>, lines: seq<Bytes>, candles: seq<Row>,
    previous: Option<Row>, absorbed: Bytes, batches: seq<seq<Row>>, batch: seq<Row>, line: Bytes, c: Row)
    requires StandsAt(rules, enc, contracts, lines, candles, previous, absorbed, batches, batch)
    requires LineHolds(line, lines == []) && LineCandle(rules, previous, line) == Some(c)
    ensures var full := |batch| + 1 == BATCH;
      StandsAt(rules, enc, contracts, lines + [line], candles + [c], Some(c), absorbed + enc.candle(c) + [LF],
               if full then batches + [batch + [c]] else batches, if full then [] else batch + [c])
  {
    hide LineHolds, Absorbed;
    assert (lines + [line])[..|lines|] == lines;
    AbsorbedAppends(enc, contracts, candles, c);
    FlatAppends(batches, batch + [c]);
    assert Flat(batches) + (batch + [c]) == Flat(batches) + batch + [c];
  }

  lemma NoLineYet(rules: Rules, enc: Encoding, contracts: seq<ResearchManifest.Contract>)
    ensures StandsAt(rules, enc, contracts, [], [], None, Absorbed(enc, contracts, []), [], [])
  {
  }

  lemma {:induction false} ScanFailsEarly(rules: Rules, lines: seq<Bytes>, more: seq<Bytes>)
    requires Scanned(rules, lines).None?
    ensures Scanned(rules, lines + more).None?
  {
    if more == [] {
      assert lines + more == lines;
    } else {
      var init := more[..|more| - 1];
      assert (lines + more)[..|lines + more| - 1] == lines + init;
      ScanFailsEarly(rules, lines, init);
    }
  }

  // The lines of a prefix come first among the lines of the file.
  lemma {:induction false} LinesGrow(a: Bytes, b: Bytes) returns (more: seq<Bytes>)
    ensures Lines(a + b) == Lines(a) + more
  {
    if b == [] {
      more := [];
      assert a + b == a && Lines(a) + more == Lines(a);
    } else {
      var init, last := b[..|b| - 1], b[|b| - 1];
      more := LinesGrow(a, init);
      assert a + b == (a + init) + [last];
      OneByteMore(a + init, last);
      if last == LF {
        more := more + [Rest(a + init)];
      }
    }
  }

  lemma BadLineSpoilsTheFile(rules: Rules, before: Bytes, line: Bytes, after: Bytes)
    requires Rest(before) == line && Scanned(rules, Lines(before) + [line]).None?
    ensures Scanned(rules, Lines(before + [LF] + after)).None?
  {
    OneByteMore(before, LF);
    var more := LinesGrow(before + [LF], after);
    ScanFailsEarly(rules, Lines(before) + [line], more);
  }

  // What the scan accepts.
  ghost predicate Scans(rules: Rules, hash: Bytes -> Bytes, expected: Bytes, chunks: seq<Bytes>) {
    var raw := Concat(chunks);
    && CarriesHold(chunks) && LastByteKnown(chunks) && raw[|raw| - 1] == LF
    && Scanned(rules, Lines(raw)).Some? && hash(raw) == expected
  }

  // The bytes up to `index` of a chunk, split at their last line feed: the lines are behind, `rest` is in hand.
  ghost predicate SplitAt(seen: Bytes, lines: seq<Bytes>, rest: Bytes) {
    Lines(seen) == lines && Rest(seen) == rest
  }

  lemma OneByteOn(base: Bytes, data: Bytes, index: nat, start: nat, lines: seq<Bytes>)
    requires start <= index < |data| && SplitAt(base + data[..index], lines, data[start..index])
    ensures data[index] == LF ==>
              SplitAt(base + data[..index + 1], lines + [data[start..index]], data[index + 1..index + 1])
    ensures data[index] != LF ==> SplitAt(base + data[..index + 1], lines, data[start..index + 1])
  {
    hide Lines, Rest;
    OneByteMore(base + data[..index], data[index]);
    assert base + data[..index + 1] == base + data[..index] + [data[index]];
    assert data[start..index + 1] == data[start..index] + [data[index]];
  }

  lemma RejectedLine(rules: Rules, lines: seq<Bytes>, candles: seq<Row>, line: Bytes)
    requires Scanned(rules, lines) == Some(candles)
    requires !LineHolds(line, lines == []) || LineCandle(rules, LastOf(candles), line).None?
    ensures Scanned(rules, lines + [line]).None?
  {
    hide LineHolds;
    assert (lines + [line])[..|lines|] == lines;
  }

  // What one chunk adds: the carry and the chunk are scanned together, byte by byte.
  lemma ChunkExtends(chunks: seq<Bytes>, k: nat)
    requires k < |chunks|
    ensures Concat(chunks[..k + 1]) == Concat(chunks[..k]) + chunks[k]
  {
    assert chunks[..k + 1][..k] == chunks[..k];
  }

  lemma {:induction false} ConcatSplits(chunks: seq<Bytes>, k: nat) returns (after: Bytes)
    requires k <= |chunks|
    ensures Concat(chunks) == Concat(chunks[..k]) + after
  {
    if k == |chunks| {
      assert chunks[..k] == chunks;
      after := [];
    } else {
      assert chunks[..|chunks| - 1][..k] == chunks[..k];
      var init := ConcatSplits(chunks[..|chunks| - 1], k);
      after := init + chunks[|chunks| - 1];
    }
  }

  // A line found bad anywhere in the chunks makes the whole scan one that must not be accepted.
  lemma BadLineFound(
    rules: Rules, chunks: seq<Bytes>, k: nat, base: Bytes, data: Bytes, index: nat, lines: seq<Bytes>, line: Bytes)
    requires k < |chunks| && base + data == Concat(chunks[..k + 1]) && index < |data| && data[index] == LF
    requires SplitAt(base + data[..index], lines, line) && Scanned(rules, lines + [line]).None?
    ensures Scanned(rules, Lines(Concat(chunks))).None?
  {
    hide Scanned, Lines, Rest, Concat;
    var after := ConcatSplits(chunks, k + 1);
    var before, behind := base + data[..index], data[index + 1..] + after;
    BadLineSpoilsTheFile(rules, before, line, behind);
    assert data == data[..index] + [LF] + data[index + 1..];
    assert Concat(chunks) == before + [LF] + behind;
  }

  // At the end: what is left to check is the last byte, and the whole file's checksum.
  lemma EndOfScan(rules: Rules, chunks: seq<Bytes>, lines: seq<Bytes>, carry: Bytes, lastByte: Option<byte>)
    requires SplitAt(Concat(chunks), lines, carry)
    requires lastByte == LastByteOf(chunks)
    ensures lines != [] && lastByte == Some(LF) && carry == [] <==>
              LastByteKnown(chunks) && Concat(chunks)[|Concat(chunks)| - 1] == LF
  {
    var raw := Concat(chunks);
    if LastByteKnown(chunks) {
      var last := chunks[|chunks| - 1];
      assert raw[|raw| - 1] == last[|last| - 1];
    }
  }

  // One complete line: checked, parsed, hashed and put in its batch.
  method ScanLine(
    rules: Rules, enc: Encoding, ghost contracts: seq<ResearchManifest.Contract>,
    validator: ResearchCandleSequenceValidator, fingerprint: ResearchDatasetFingerprintBuilder, bytes: Bytes,
    isFirst: bool, batches: seq<seq<Row>>, batch: seq<Row>, ghost lines: seq<Bytes>, ghost candles: seq<Row>)
    returns (candle: Option<Row>, newBatches: seq<seq<Row>>, newBatch: seq<Row>)
    requires fingerprint.enc == enc && !fingerprint.digested && validator.rules == rules
    requires isFirst == (lines == [])
    requires StandsAt(rules, enc, contracts, lines, candles, validator.previous, fingerprint.absorbed, batches, batch)
    modifies validator, fingerprint
    ensures !fingerprint.digested
    ensures candle.None? ==> Scanned(rules, lines + [bytes]).None?
    ensures candle.Some? ==>
              StandsAt(rules, enc, contracts, lines + [bytes], candles + [candle.value], validator.previous,
                       fingerprint.absorbed, newBatches, newBatch)
  {
    hide LineHolds, Absorbed, LineCandle;
    newBatches, newBatch := batches, batch;
    candle := None;
    if LineHolds(bytes, isFirst) {
      candle := validator.ParseLine(bytes);
    }
    if candle.None? {
      RejectedLine(rules, lines, candles, bytes);
      return;
    }
    OneLineMore(rules, enc, contracts, lines, candles, LastOf(candles), fingerprint.absorbed, batches, batch, bytes,
                candle.value);
    var updated := fingerprint.UpdateCandle(candle.value);
    newBatch := newBatch + [candle.value];
    if |newBatch| == BATCH {
      newBatches := newBatches + [newBatch];
      newBatch := [];
    }
  }

  // The streaming scan. It accepts exactly the files that `Scans` describes, hands over every candle in order in
  // batches of 500, the last one possibly smaller, and its fingerprint is that of the canonical bytes.
  method ScanCandleFile(
    rules: Rules, enc: Encoding, contracts: seq<ResearchManifest.Contract>, hash: Bytes -> Bytes, expected: Bytes,
    chunks: seq<Bytes>) returns (result: Option<ScanResult>, batches: seq<seq<Row>>)
    ensures result.Some? <==> Scans(rules, hash, expected, chunks)
    ensures result.Some? ==>
              var candles := Scanned(rules, Lines(Concat(chunks))).value;
              && Flat(batches) == candles && result.value.candlesCount == |candles|
              && result.value.fingerprint == hash(CanonicalFingerprintBytes(enc, contracts, candles))
              && InBatches(batches)
  {
    hide StandsAt, Scanned, Lines, Rest, Concat, SplitAt, CarriesHold, Scans;
    var fingerprint := new ResearchDatasetFingerprintBuilder(enc, contracts);
    var validator := new ResearchCandleSequenceValidator(rules);
    var carry: Bytes := [];
    var lineNumber: nat := 0;
    var lastByte: Option<byte> := None;
    var batch: seq<Row> := [];
    batches := [];
    ghost var lines: seq<Bytes>, candles: seq<Row> := [], [];
    NoLineYet(rules, enc, contracts);
    NothingRead(chunks);
    var k := 0;
    while k < |chunks|
      invariant 0 <= k <= |chunks| && lineNumber == |lines| && CarriesHold(chunks[..k])
      invariant fresh(fingerprint) && fresh(validator)
      invariant fingerprint.enc == enc && !fingerprint.digested && validator.rules == rules
      invariant StandsAt(rules, enc, contracts, lines, candles, validator.previous, fingerprint.absorbed,
                         batches, batch)
      invariant SplitAt(Concat(chunks[..k]), lines, carry)
      invariant lastByte == LastByteOf(chunks[..k])
    {
      var chunk := chunks[k];
      lastByte := if chunk == [] then None else Some(chunk[|chunk| - 1]);
      var data := carry + chunk;
      var start := 0;
      var index := 0;
      ghost var base := Behind(chunks, k, lines, carry);
      while index < |data|
        invariant 0 <= start <= index <= |data| && lineNumber == |lines|
        invariant fresh(fingerprint) && fresh(validator)
        invariant fingerprint.enc == enc && !fingerprint.digested && validator.rules == rules
        invariant StandsAt(rules, enc, contracts, lines, candles, validator.previous, fingerprint.absorbed,
                           batches, batch)
        invariant SplitAt(base + data[..index], lines, data[start..index])
      {
        OneByteOn(base, data, index, start, lines);
        if data[index] == LF {
          var bytes := data[start..index];
          lineNumber := lineNumber + 1;
          var candle;
          candle, batches, batch := ScanLine(
            rules, enc, contracts, validator, fingerprint, bytes, lineNumber == 1, batches, batch, lines, candles);
          if candle.None? {
            BadLineFound(rules, chunks, k, base, data, index, lines, bytes);
            NotScanned(rules, hash, expected, chunks);
            return None, batches;
          }
          lines, candles := lines + [bytes], candles + [candle.value];
          start := index + 1;
        }
        index := index + 1;
      }
      assert data[..index] == data && data[start..index] == data[start..];
      carry := data[start..];
      k := k + 1;
      CarryVerdict(chunks, k, lines, carry);
      if |carry| > MAX_LINE {
        NotScanned(rules, hash, expected, chunks);
        return None, batches;
      }
      assert LastByteOf(chunks[..k]) == lastByte;
    }
    assert chunks[..k] == chunks;
    ScanVerdict(rules, hash, expected, chunks, lines, candles, carry, lastByte, enc, contracts, validator.previous,
                fingerprint.absorbed, batches, batch);
    if lineNumber == 0 || lastByte != Some(LF) || carry != [] {
      return None, batches;
    }
    if batch != [] {
      batches := batches + [batch];
    }
    if hash(Concat(chunks)) != expected {
      return None, batches;
    }
    var digest := fingerprint.Digest(hash);
    return Some(ScanResult(digest.value, lineNumber)), batches;
  }

  ghost predicate InBatches(batches: seq<seq<Row>>) {
    && (forall i :: 0 <= i < |batches| ==> 0 < |batches[i]| <= 500)
    && (forall i :: 0 <= i < |batches| - 1 ==> |batches[i]| == 500)
  }

  function LastByteOf(chunks: seq<Bytes>): Option<byte> {
    if LastByteKnown(chunks) then Some(chunks[|chunks| - 1][|chunks[|chunks| - 1]| - 1]) else None
  }

  lemma NotScanned(rules: Rules, hash: Bytes -> Bytes, expected: Bytes, chunks: seq<Bytes>)
    requires !CarriesHold(chunks) || Scanned(rules, Lines(Concat(chunks))).None?
    ensures !Scans(rules, hash, expected, chunks)
  {
  }

  lemma ScanVerdict(
    rules: Rules, hash: Bytes -> Bytes, expected: Bytes, chunks: seq<Bytes>, lines: seq<Bytes>, candles: seq<Row>,
    carry: Bytes, lastByte: Option<byte>, enc: Encoding, contracts: seq<ResearchManifest.Contract>,
    previous: Option<Row>, absorbed: Bytes, batches: seq<seq<Row>>, batch: seq<Row>)
    requires StandsAt(rules, enc, contracts, lines, candles, previous, absorbed, batches, batch)
    requires SplitAt(Concat(chunks), lines, carry) && CarriesHold(chunks) && lastByte == LastByteOf(chunks)
    ensures Scans(rules, hash, expected, chunks) <==>
              lines != [] && lastByte == Some(LF) && carry == [] && hash(Concat(chunks)) == expected
    ensures Scanned(rules, Lines(Concat(chunks))) == Some(candles) && |candles| == |lines|
    ensures absorbed == CanonicalFingerprintBytes(enc, contracts, candles)
    ensures var all := if batch != [] then batches + [batch] else batches; InBatches(all) && Flat(all) == candles
  {
    EndOfScan(rules, chunks, lines, carry, lastByte);
    AbsorbedIsCanonical(enc, contracts, candles);
    FlushedBatches(batches, batch);
  }

  lemma NothingRead(chunks: seq<Bytes>)
    ensures SplitAt(Concat(chunks[..0]), [], []) && CarriesHold(chunks[..0])
  {
  }

  // The bytes of the complete lines so far; the carry follows them.
  lemma Behind(chunks: seq<Bytes>, k: nat, lines: seq<Bytes>, carry: Bytes) returns (base: Bytes)
    requires k < |chunks| && SplitAt(Concat(chunks[..k]), lines, carry)
    ensures base + (carry + chunks[k]) == Concat(chunks[..k + 1])
    ensures SplitAt(base + (carry + chunks[k])[..0], lines, [])
  {
    LinesMakeTheFile(Concat(chunks[..k]));
    base := Terminated(lines);
    assert base + carry == Concat(chunks[..k]);
    ChunkExtends(chunks, k);
    assert base + (carry + chunks[k])[..0] == base;
    TerminatedSplits(lines);
  }

  lemma {:induction false} TerminatedSplits(lines: seq<Bytes>)
    requires forall line :: line in lines ==> LF !in line
    ensures SplitAt(Terminated(lines), lines, [])
  {
    if lines != [] {
      var init, last := lines[..|lines| - 1], lines[|lines| - 1];
      assert lines == init + [last];
      TerminatedSplits(init);
      PlainBytes(Terminated(init), last);
      OneByteMore(Terminated(init) + last, LF);
    }
  }

  lemma {:induction false} PlainBytes(seen: Bytes, more: Bytes)
    requires LF !in more && Rest(seen) == []
    ensures Lines(seen + more) == Lines(seen) && Rest(seen + more) == more
  {
    if more == [] {
      assert seen + more == seen;
    } else {
      var init, b := more[..|more| - 1], more[|more| - 1];
      PlainBytes(seen, init);
      assert seen + more == (seen + init) + [b];
      OneByteMore(seen + init, b);
    }
  }

  lemma CarryVerdict(chunks: seq<Bytes>, k: nat, lines: seq<Bytes>, carry: Bytes)
    requires 0 < k <= |chunks| && SplitAt(Concat(chunks[..k]), lines, carry) && CarriesHold(chunks[..k - 1])
    ensures |carry| <= MAX_LINE ==> CarriesHold(chunks[..k])
    ensures |carry| > MAX_LINE ==> !CarriesHold(chunks)
  {
    forall j | 0 < j <= k
      ensures chunks[..k][..j] == chunks[..j]
    {
    }
    forall j | 0 < j <= k - 1
      ensures |Rest(Concat(chunks[..j]))| <= MAX_LINE
    {
      assert chunks[..k - 1][..j] == chunks[..j];
    }
  }

  lemma FlushedBatches(batches: seq<seq<Row>>, batch: seq<Row>)
    requires FullBatches(batches) && |batch| < BATCH
    ensures var all := if batch != [] then batches + [batch] else batches;
      Flat(all) == Flat(batches) + batch && InBatches(all)
  {
    FlatAppends(batches, batch);
    assert forall i :: 0 <= i < |batches| ==> batches[i] in batches;
  }

  // Streaming and whole-file parsing meet: the scan accepts exactly the files the parser accepts whose chunks never
  // end more than 64 KiB into a line, whose last chunk is not empty and whose checksum matches, with the same candles.
  lemma ScanRefinesParse(rules: Rules, hash: Bytes -> Bytes, expected: Bytes, chunks: seq<Bytes>)
    ensures Scans(rules, hash, expected, chunks) <==>
              && WholeParse(rules, Concat(chunks)).Some? && CarriesHold(chunks) && LastByteKnown(chunks)
              && hash(Concat(chunks)) == expected
    ensures Scans(rules, hash, expected, chunks) ==>
              Scanned(rules, Lines(Concat(chunks))) == WholeParse(rules, Concat(chunks))
  {
    var raw := Concat(chunks);
    if LastByteKnown(chunks) {
      assert raw != [];
      if raw[|raw| - 1] == LF {
        ScanMeetsParse(rules, raw);
      }
    }
    hide Scanned, Parsed, Lines, CarriesHold, Utf8, StartsWithBom;
  }

  // Lines of at most 64 KiB can be cut anywhere: no carry is too long.
  lemma ShortLinesCarry(chunks: seq<Bytes>)
    requires Rest(Concat(chunks)) == [] && forall line :: line in Lines(Concat(chunks)) ==> |line| <= MAX_LINE
    ensures CarriesHold(chunks)
  {
    forall k | 0 < k <= |chunks|
      ensures |Rest(Concat(chunks[..k]))| <= MAX_LINE
    {
      var after := ConcatSplits(chunks, k);
      RestStartsALine(Concat(chunks[..k]), after);
    }
  }

  // However a stream cuts the file into non-empty chunks, with lines of at most 64 KiB the scan accepts exactly what
  // the whole-file parser accepts with a matching checksum, and reads the same candles.
  lemma StreamsReadAlike(rules: Rules, hash: Bytes -> Bytes, expected: Bytes, chunks: seq<Bytes>)
    requires forall chunk :: chunk in chunks ==> chunk != []
    requires forall line :: line in Lines(Concat(chunks)) ==> |line| <= MAX_LINE
    ensures Scans(rules, hash, expected, chunks) <==>
              WholeParse(rules, Concat(chunks)).Some? && hash(Concat(chunks)) == expected
    ensures Scans(rules, hash, expected, chunks) ==>
              Scanned(rules, Lines(Concat(chunks))) == WholeParse(rules, Concat(chunks))
  {
    ScanRefinesParse(rules, hash, expected, chunks);
    var raw := Concat(chunks);
    if WholeParse(rules, raw).Some? {
      assert chunks != [];
      assert chunks[|chunks| - 1] in chunks;
      EndedFileHasNoRest(raw);
      ShortLinesCarry(chunks);
    }
    hide Scans, WholeParse, Lines, Scanned, CarriesHold;
  }

  lemma EndedFileHasNoRest(raw: Bytes)
    requires raw != [] && raw[|raw| - 1] == LF
    ensures Rest(raw) == []
  {
    var init := raw[..|raw| - 1];
    assert raw == init + [LF];
    OneByteMore(init, LF);
  }

  lemma RestStartsALine(a: Bytes, b: Bytes)
    requires Rest(a + b) == []
    ensures Rest(a) == [] || exists line :: line in Lines(a + b) && |line| >= |Rest(a)|
  {
    hide Lines, Rest;
    if LF in b {
      var i :| 0 <= i < |b| && b[i] == LF;
      var j := FirstLf(b, i);
      var before := a + b[..j];
      PlainRest(a, b[..j]);
      OneByteMore(before, LF);
      var more := LinesGrow(before + [LF], b[j + 1..]);
      assert b == b[..j] + [LF] + b[j + 1..];
      assert a + b == before + [LF] + b[j + 1..];
      assert Lines(a + b)[|Lines(before)|] == Rest(before);
    } else {
      PlainRest(a, b);
    }
  }

  lemma {:induction false} FirstLf(b: Bytes, i: nat) returns (j: nat)
    requires i < |b| && b[i] == LF
    ensures j <= i && b[j] == LF && LF !in b[..j]
  {
    if LF in b[..i] {
      var k :| 0 <= k < i && b[k] == LF;
      j := FirstLf(b, k);
    } else {
      j := i;
    }
  }

  lemma {:induction false} PlainRest(a: Bytes, b: Bytes)
    requires LF !in b
    ensures Rest(a + b) == Rest(a) + b
  {
    if b == [] {
      assert a + b == a;
    } else {
      var init, last := b[..|b| - 1], b[|b| - 1];
      PlainRest(a, init);
      assert a + b == (a + init) + [last];
      OneByteMore(a + init, last);
    }
  }
}
