/** The DNS-over-QUIC encoder of internal/protocol/zop/doq.go: data as character strings (section 3.3
    of RFC 1035) behind the question of a DNS query. */
module Doq {
  import opened Bytes

  const CHUNK: nat := 255
  const HEADER: nat := 12

  datatype DoqError = MessageTooShort | DnsTooShort | NameTooLong | NoNameEnd | NoTypeClass | TxtTooLong

  // Character strings

  function TxtBytes(data: seq<byte>): seq<byte> {
    if data == [] then []
    else
      var k := Min(|data|, CHUNK);
      [k as byte] + data[..k] + TxtBytes(data[k..])
  }

  /** The chunks laid end to end, each behind its length. */
  function Laid(chunks: seq<seq<byte>>): seq<byte> {
    if chunks == [] then [] else Laid(chunks[..|chunks| - 1]) + [Low(|chunks[|chunks| - 1]|)] + chunks[|chunks| - 1]
  }

  lemma LaidSnoc(chunks: seq<seq<byte>>, chunk: seq<byte>)
    ensures Laid(chunks + [chunk]) == Laid(chunks) + [Low(|chunk|)] + chunk
  {
    assert (chunks + [chunk])[..|chunks|] == chunks;
  }

  /** `createTXTRecord`: cuts the data first, then lays out the chunks. */
  method CreateTxtRecord(data: seq<byte>) returns (record: seq<byte>)
    ensures record == TxtBytes(data)
  {
    var chunks: seq<seq<byte>> := [];
    var i := 0;
    assert data[0..] == data;
    while i < |data|
      invariant Laid(chunks) + TxtBytes(data[Min(i, |data|)..]) == TxtBytes(data)
      decreases |data| - i
    {
      var end := Min(i + CHUNK, |data|);
      CutOne(data, i, Laid(chunks));
      LaidSnoc(chunks, data[i..end]);
      chunks := chunks + [data[i..end]];
      i := i + CHUNK;
    }
    assert data[|data|..] == [];
    record := [];
    var k := 0;
    while k < |chunks|
      invariant 0 <= k <= |chunks| && record == Laid(chunks[..k])
    {
      LaidSnoc(chunks[..k], chunks[k]);
      assert chunks[..k] + [chunks[k]] == chunks[..k + 1];
      record := record + [Low(|chunks[k]|)] + chunks[k];
      k := k + 1;
    }
    assert chunks[..k] == chunks;
  }

  lemma CutOne(data: seq<byte>, i: nat, before: seq<byte>)
    requires i < |data|
    ensures var end := Min(i + CHUNK, |data|);
            before + [Low(|data[i..end]|)] + data[i..end] + TxtBytes(data[end..]) == before + TxtBytes(data[i..])
  {
    var end := Min(i + CHUNK, |data|);
    var k := end - i;
    assert data[i..][..k] == data[i..end] && data[i..][k..] == data[end..];
    Assoc(before, [k as byte] + data[i..end], TxtBytes(data[end..]));
    Assoc(before, [k as byte], data[i..end]);
  }

  /** The record is `ceil(n / 255)` bytes longer than the data. */
  lemma {:induction false} TxtLength(data: seq<byte>)
    ensures |TxtBytes(data)| == |data| + (|data| + 254) / 255
    decreases |data|
  {
    if |data| > CHUNK {
      TxtLength(data[CHUNK..]);
    } else if data != [] {
      assert TxtBytes(data[|data|..]) == [];
    }
  }

  function ReadTxt(data: seq<byte>): Option<seq<byte>> {
    if data == [] then Some([])
    else
      var k := data[0] as int;
      if 1 + k > |data| then None
      else match ReadTxt(data[1 + k..]) case None => None case Some(rest) => Some(data[1..1 + k] + rest)
  }

  lemma {:induction false} TxtRoundTrip(data: seq<byte>)
    ensures ReadTxt(TxtBytes(data)) == Some(data)
    decreases |data|
  {
    if data != [] {
      var k := Min(|data|, CHUNK);
      var t := TxtBytes(data);
      TxtRoundTrip(data[k..]);
      assert t == [k as byte] + (data[..k] + TxtBytes(data[k..]));
      assert t[1..1 + k] == data[..k] && t[1 + k..] == TxtBytes(data[k..]);
      SplitAt(data, k);
    }
  }

  // Names

  function NameBytes(labels: seq<seq<byte>>): seq<byte> {
    if labels == [] then [0] else [Low(|labels[0]|)] + labels[0] + NameBytes(labels[1..])
  }

  /** What the label loop skips, the final zero not included; `None` stands for a label that is too
      long, and the whole length for a name without end. */
  function SkipName(data: seq<byte>): Option<nat> {
    if data == [] || data[0] == 0 then Some(0)
    else
      var k := data[0] as int + 1;
      if k > |data| then None else match SkipName(data[k..]) case None => None case Some(n) => Some(k + n)
  }

  predicate Proper(name: seq<byte>) {
    0 < |name| <= 255
  }

  lemma OneLabel(l: seq<byte>, more: seq<byte>)
    requires Proper(l)
    ensures SkipName(([Low(|l|)] + l) + more) == Shifted(SkipName(more), |l| + 1)
  {
    var data := ([Low(|l|)] + l) + more;
    assert data[0] as int == |l|;
    PrefixOfAppend([Low(|l|)] + l, more);
  }

  /** With labels of 1 to 255 bytes the loop stops exactly at the end of the name. */
  lemma {:induction false} SkipStopsAtEnd(labels: seq<seq<byte>>, rest: seq<byte>)
    requires forall l :: l in labels ==> Proper(l)
    ensures SkipName(NameBytes(labels) + rest) == Some(|NameBytes(labels)| - 1)
    decreases |labels|
  {
    hide Low;
    if labels != [] {
      var head, more := [Low(|labels[0]|)] + labels[0], NameBytes(labels[1..]);
      Assoc(head, more, rest);
      OneLabel(labels[0], more + rest);
      SkipStopsAtEnd(labels[1..], rest);
    }
  }

  function Shifted(n: Option<nat>, skipped: nat): Option<nat> {
    match n case None => None case Some(k) => Some(skipped + k)
  }

  // Messages

  const EXAMPLE: seq<byte> := [0x65, 0x78, 0x61, 0x6D, 0x70, 0x6C, 0x65]
  const COM: seq<byte> := [0x63, 0x6F, 0x6D]

  function Labels(subdomain: seq<byte>): seq<seq<byte>> {
    [subdomain, EXAMPLE, COM]
  }

  function QType(queryType: string): uint16 {
    if queryType == "A" then 1 else if queryType == "AAAA" then 28 else 16
  }

  /** Only a TXT query carries the data; no type at all means TXT. */
  predicate Carries(queryType: string) {
    queryType == "" || queryType == "TXT"
  }

  const QUERY_HEADER: seq<byte> := [0x00, 0x01, 0x01, 0x00, 0x00, 0x01, 0x00, 0x00, 0x00, 0x00, 0x00, 0x00]

  function TypeClass(queryType: string): seq<byte> {
    Be16(QType(queryType)) + Be16(1)
  }

  function QueryBytes(queryType: string, subdomain: seq<byte>, data: seq<byte>): seq<byte> {
    QUERY_HEADER + NameBytes(Labels(subdomain)) + TypeClass(queryType) + (if Carries(queryType) then TxtBytes(data) else [])
  }

  /** `createDNSQuery`; `subdomain` is the first label that the template gives. */
  method CreateDnsQuery(queryType: string, subdomain: seq<byte>, data: seq<byte>) returns (message: seq<byte>)
    ensures message == QueryBytes(queryType, subdomain, data)
  {
    var wanted := if queryType == "" then "TXT" else queryType;
    var name: seq<byte> := [];
    var parts, i := Labels(subdomain), 0;
    assert parts[0..] == parts;
    while i < |parts|
      invariant 0 <= i <= |parts| && name + NameBytes(parts[i..]) == NameBytes(parts)
    {
      LabelMore(name, parts, i);
      name := name + [Low(|parts[i]|)] + parts[i];
      i := i + 1;
    }
    name := name + [0x00];
    var additional: seq<byte> := [];
    if wanted == "TXT" {
      additional := CreateTxtRecord(data);
    }
    message := QUERY_HEADER + name + TypeClass(queryType) + additional;
  }

  lemma LabelMore(name: seq<byte>, parts: seq<seq<byte>>, i: nat)
    requires i < |parts|
    ensures name + [Low(|parts[i]|)] + parts[i] + NameBytes(parts[i + 1..]) == name + NameBytes(parts[i..])
  {
    assert parts[i..][1..] == parts[i + 1..];
    Assoc(name, [Low(|parts[i]|)] + parts[i], NameBytes(parts[i + 1..]));
    Assoc(name, [Low(|parts[i]|)], parts[i]);
  }

  function MessageHeader(id: uint16, length: nat): seq<byte> {
    [0x00, 0x01, 0x00, 0x00] + Be32(id) + Be32(Wrap32(length))
  }

  /** `Obfuscate`; `now` is the clock, of which the message id keeps sixteen bits. */
  method Obfuscate(queryType: string, subdomain: seq<byte>, now: nat, data: seq<byte>) returns (message: seq<byte>)
    ensures message == Obfuscated(queryType, subdomain, Wrap16(now), data)
  {
    var query := CreateDnsQuery(queryType, subdomain, data);
    message := MessageHeader(Wrap16(now), |query|) + query;
  }

  function Obfuscated(queryType: string, subdomain: seq<byte>, id: uint16, data: seq<byte>): seq<byte> {
    var query := QueryBytes(queryType, subdomain, data);
    MessageHeader(id, |query|) + query
  }

  /** What `extractFromDNSResponse` finds in a message. */
  function Extracted(dns: seq<byte>): Result<seq<byte>, DoqError> {
    if |dns| < HEADER then Err(DnsTooShort)
    else
      match SkipName(dns[HEADER..])
      case None => Err(NameTooLong)
      case Some(n) =>
        var pos := HEADER + n;
        if pos >= |dns| then Err(NoNameEnd)
        else if pos + 5 > |dns| then Err(NoTypeClass)
        else match ReadTxt(dns[pos + 5..]) case None => Err(TxtTooLong) case Some(data) => Ok(data)
  }

  function Deobfuscated(message: seq<byte>): Result<seq<byte>, DoqError> {
    if |message| <= HEADER then Err(MessageTooShort) else Extracted(message[HEADER..])
  }

  /** `Deobfuscate`. */
  method Deobfuscate(message: seq<byte>) returns (r: Result<seq<byte>, DoqError>)
    ensures r == Deobfuscated(message)
  {
    if |message| <= HEADER {
      return Err(MessageTooShort);
    }
    r := ExtractFromDnsResponse(message[HEADER..]);
  }

  method ExtractFromDnsResponse(dns: seq<byte>) returns (r: Result<seq<byte>, DoqError>)
    ensures r == Extracted(dns)
  {
    if |dns| < HEADER {
      return Err(DnsTooShort);
    }
    var end := SkipLabels(dns);
    if end.None? {
      return Err(NameTooLong);
    }
    var pos := end.value;
    if pos >= |dns| {
      return Err(NoNameEnd);
    }
    pos := pos + 1;
    if pos + 4 > |dns| {
      return Err(NoTypeClass);
    }
    pos := pos + 4;
    r := ReadStrings(dns, pos);
  }

  /** Its first loop: the position of the zero that ends the name. */
  method SkipLabels(dns: seq<byte>) returns (end: Option<nat>)
    requires |dns| >= HEADER
    ensures end == Shifted(SkipName(dns[HEADER..]), HEADER)
  {
    var pos := HEADER;
    while pos < |dns| && dns[pos] != 0
      invariant HEADER <= pos <= |dns|
      invariant Shifted(SkipName(dns[HEADER..]), HEADER) == Shifted(SkipName(dns[pos..]), pos)
    {
      var length := dns[pos] as nat;
      NextLabel(dns, pos);
      if pos + length + 1 > |dns| {
        return None;
      }
      pos := pos + length + 1;
    }
    end := Some(pos);
  }

  lemma NextLabel(dns: seq<byte>, pos: nat)
    requires pos < |dns| && dns[pos] != 0
    ensures var k := dns[pos] as nat + 1;
            Shifted(SkipName(dns[pos..]), pos)
            == if pos + k > |dns| then None else Shifted(SkipName(dns[pos + k..]), pos + k)
  {
    SliceOfSlice(dns, pos, dns[pos] as nat + 1);
  }

  lemma SliceOfSlice(s: seq<byte>, i: nat, k: nat)
    requires i < |s|
    ensures s[i..][0] == s[i] && (i + k <= |s| ==> s[i..][k..] == s[i + k..])
    ensures 1 <= k && i + k <= |s| ==> s[i..][1..k] == s[i + 1..i + k]
  {
  }

  /** Its last loop. */
  method ReadStrings(dns: seq<byte>, start: nat) returns (r: Result<seq<byte>, DoqError>)
    requires start <= |dns|
    ensures r == match ReadTxt(dns[start..]) case None => Err(TxtTooLong) case Some(data) => Ok(data)
  {
    hide ReadTxt;
    var pos := start;
    var result: seq<byte> := [];
    PrefixNone(ReadTxt(dns[start..]));
    while pos < |dns|
      invariant start <= pos <= |dns|
      invariant ReadTxt(dns[start..]) == Prefixed(result, ReadTxt(dns[pos..]))
    {
      var chunkLen := dns[pos] as nat;
      NextString(dns, pos);
      pos := pos + 1;
      if pos + chunkLen > |dns| {
        return Err(TxtTooLong);
      }
      var chunk := dns[pos..pos + chunkLen];
      PrefixMore(result, chunk, ReadTxt(dns[pos + chunkLen..]));
      if chunkLen > 0 {
        result := result + chunk;
      }
      pos := pos + chunkLen;
    }
    assert dns[pos..] == [] && result + [] == result;
    ReadNothing();
    r := Ok(result);
  }

  lemma ReadNothing()
    ensures ReadTxt([]) == Some([])
  {
  }

  lemma NextString(dns: seq<byte>, pos: nat)
    requires pos < |dns|
    ensures var end := pos + 1 + dns[pos] as nat;
            ReadTxt(dns[pos..]) == if end > |dns| then None else Prefixed(dns[pos + 1..end], ReadTxt(dns[end..]))
  {
    SliceOfSlice(dns, pos, dns[pos] as nat + 1);
  }

  lemma PrefixNone(r: Option<seq<byte>>)
    ensures Prefixed([], r) == r
  {
    assert r.Some? ==> [] + r.value == r.value;
  }

  function Prefixed(before: seq<byte>, r: Option<seq<byte>>): Option<seq<byte>> {
    match r case None => None case Some(s) => Some(before + s)
  }

  lemma PrefixMore(before: seq<byte>, chunk: seq<byte>, r: Option<seq<byte>>)
    ensures Prefixed(before, Prefixed(chunk, r)) == Prefixed(before + chunk, r)
    ensures chunk == [] ==> before + chunk == before
  {
    if r.Some? {
      Assoc(before, chunk, r.value);
    }
  }

  // What another reader finds in a message

  /** The six 16-bit fields of a DNS header (section 4.1.1 of RFC 1035). */
  datatype DnsHeader = DnsHeader(id: int, flags: int, questions: int, answers: int, authorities: int, additionals: int)

  function HeaderOf(dns: seq<byte>): DnsHeader
    requires |dns| >= HEADER
  {
    DnsHeader(FromBe16(dns[0], dns[1]), FromBe16(dns[2], dns[3]), FromBe16(dns[4], dns[5]),
              FromBe16(dns[6], dns[7]), FromBe16(dns[8], dns[9]), FromBe16(dns[10], dns[11]))
  }

  /** The labels of a name, up to its zero, and what follows; `None` for a name that is cut off. */
  function ReadName(data: seq<byte>): Option<(seq<seq<byte>>, seq<byte>)> {
    if data == [] then None
    else if data[0] == 0 then Some(([], data[1..]))
    else
      var k := data[0] as int + 1;
      if k > |data| then None
      else match ReadName(data[k..]) case None => None case Some((ls, rest)) => Some(([data[1..k]] + ls, rest))
  }

  lemma ReadLabel(l: seq<byte>, more: seq<byte>)
    requires Proper(l)
    ensures ReadName(([Low(|l|)] + l) + more)
            == match ReadName(more) case None => None case Some((ls, rest)) => Some(([l] + ls, rest))
  {
    var data := ([Low(|l|)] + l) + more;
    assert data[0] as int == |l|;
    PrefixOfAppend([Low(|l|)] + l, more);
    assert data[1..|l| + 1] == l;
  }

  lemma {:induction false} NameReadBack(labels: seq<seq<byte>>, rest: seq<byte>)
    requires forall l :: l in labels ==> Proper(l)
    ensures ReadName(NameBytes(labels) + rest) == Some((labels, rest))
    decreases |labels|
  {
    hide Low;
    if labels == [] {
      assert [0] + rest == [0 as byte] + rest && ([0] + rest)[1..] == rest;
    } else {
      var head, more := [Low(|labels[0]|)] + labels[0], NameBytes(labels[1..]);
      Assoc(head, more, rest);
      ReadLabel(labels[0], more + rest);
      NameReadBack(labels[1..], rest);
      assert [labels[0]] + labels[1..] == labels;
    }
  }

  lemma QueryHeader(rest: seq<byte>)
    ensures HeaderOf(QUERY_HEADER + rest) == DnsHeader(1, 0x0100, 1, 0, 0, 0) && (QUERY_HEADER + rest)[HEADER..] == rest
  {
  }

  lemma TypeClassRead(queryType: string, tail: seq<byte>)
    ensures var rest := TypeClass(queryType) + tail;
            && |rest| >= 4 && rest[4..] == tail
            && FromBe16(rest[0], rest[1]) == QType(queryType) && FromBe16(rest[2], rest[3]) == 1
  {
    BigEndian16(QType(queryType));
    BigEndian16(1);
  }

  /** A DNS reader finds one standard query, recursion desired, for a name under example.com, in class IN. */
  lemma QueryIsStandard(queryType: string, subdomain: seq<byte>, data: seq<byte>)
    requires Proper(subdomain)
    ensures var q := QueryBytes(queryType, subdomain, data);
            && |q| >= HEADER && HeaderOf(q) == DnsHeader(1, 0x0100, 1, 0, 0, 0)
            && var name := ReadName(q[HEADER..]);
               && name.Some? && name.value.0 == [subdomain, [0x65, 0x78, 0x61, 0x6D, 0x70, 0x6C, 0x65], [0x63, 0x6F, 0x6D]]
               && var rest := name.value.1;
                  && |rest| >= 4 && FromBe16(rest[2], rest[3]) == 1
                  && FromBe16(rest[0], rest[1]) == (if queryType == "A" then 1 else if queryType == "AAAA" then 28 else 16)
                  && rest[4..] == (if queryType == "" || queryType == "TXT" then TxtBytes(data) else [])
  {
    hide HeaderOf, ReadName, NameBytes, TypeClass, TxtBytes, FromBe16;
    var labels, tail := Labels(subdomain), if Carries(queryType) then TxtBytes(data) else [];
    var name, tc := NameBytes(labels), TypeClass(queryType);
    Assoc(QUERY_HEADER, name, tc);
    Assoc(QUERY_HEADER, name + tc, tail);
    Assoc(name, tc, tail);
    QueryHeader(name + (tc + tail));
    NameReadBack(labels, tc + tail);
    TypeClassRead(queryType, tail);
  }

  /** A reader of the message header finds version 1, a query, the id, and the length of what follows. */
  lemma MessageIsFramed(id: uint16, query: seq<byte>)
    ensures var m := MessageHeader(id, |query|) + query;
            && |m| == HEADER + |query| && FromBe16(m[0], m[1]) == 1 && FromBe16(m[2], m[3]) == 0
            && FromBe32(m[4..8]) == id && m[HEADER..] == query
            && (|query| < TWO_TO_THE_32 ==> FromBe32(m[8..12]) == |query|)
  {
    var h := MessageHeader(id, |query|);
    BigEndian32(id);
    BigEndian32(Wrap32(|query|));
    PrefixOfAppend(h, query);
    assert h[4..8] == Be32(id) && h[8..12] == Be32(Wrap32(|query|));
    assert (h + query)[4..8] == h[4..8] && (h + query)[8..12] == h[8..12];
  }

  // The round trip

  lemma ExtractQuery(queryType: string, subdomain: seq<byte>, data: seq<byte>)
    requires Proper(subdomain)
    ensures Extracted(QueryBytes(queryType, subdomain, data)) == Ok(if Carries(queryType) then data else [])
  {
    var labels, tail := Labels(subdomain), if Carries(queryType) then TxtBytes(data) else [];
    var name, tc := NameBytes(labels), TypeClass(queryType);
    SkipStopsAtEnd(labels, tc + tail);
    QueryParts(name, tc, tail);
    if Carries(queryType) {
      TxtRoundTrip(data);
    }
  }

  lemma QueryParts(name: seq<byte>, tc: seq<byte>, tail: seq<byte>)
    requires |tc| == 4
    ensures var q := QUERY_HEADER + name + tc + tail;
            |q| == HEADER + |name| + 4 + |tail| && q[HEADER..] == name + (tc + tail) && q[HEADER + |name| + 4..] == tail
  {
  }

  /** With a non-empty subdomain of at most 255 bytes, a message decodes to the data exactly when the
      query type carries data or there is none. */
  lemma RoundTrip(queryType: string, subdomain: seq<byte>, id: uint16, data: seq<byte>)
    requires Proper(subdomain)
    ensures Deobfuscated(Obfuscated(queryType, subdomain, id, data)) == Ok(data) <==> Carries(queryType) || data == []
  {
    var query := QueryBytes(queryType, subdomain, data);
    PrefixOfAppend(MessageHeader(id, |query|), query);
    ExtractQuery(queryType, subdomain, data);
  }

  /** An empty subdomain ends the name at its first byte: even an empty message is then refused. */
  lemma EmptySubdomainFails(id: uint16)
    ensures Deobfuscated(Obfuscated("TXT", [], id, [])) == Err(TxtTooLong)
  {
    var query := QueryBytes("TXT", [], []);
    PrefixOfAppend(MessageHeader(id, |query|), query);
    EmptyName();
    var rest := query[HEADER + 5..];
    assert query[HEADER] == 0 && rest[0] == 0x6D && |rest| == 13;
  }

  lemma EmptyName()
    ensures NameBytes(Labels([])) == [0] + [7] + EXAMPLE + [3] + COM + [0]
  {
    assert Labels([])[1..] == [EXAMPLE, COM];
    assert [EXAMPLE, COM][1..] == [COM];
    assert NameBytes([COM]) == [3] + COM + [0];
  }

  /** Among subdomains of at most 255 bytes, every message survives exactly with the non-empty ones. */
  lemma SubdomainDecides(subdomain: seq<byte>)
    requires |subdomain| <= 255
    ensures (forall id: uint16, data: seq<byte> :: Deobfuscated(Obfuscated("TXT", subdomain, id, data)) == Ok(data))
            <==> subdomain != []
  {
    if subdomain == [] {
      EmptySubdomainFails(0);
      assert Deobfuscated(Obfuscated("TXT", subdomain, 0, [])) != Ok([]);
    } else {
      forall id: uint16, data: seq<byte> ensures Deobfuscated(Obfuscated("TXT", subdomain, id, data)) == Ok(data) {
        RoundTrip("TXT", subdomain, id, data);
      }
    }
  }
}
