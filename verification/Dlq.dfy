/**
 The dead-letter message: the original key and payload, headers that say where it came from,
 and a byte budget that is met by dropping and shortening headers only. Header names and Go
 strings written into headers are ASCII, one char for one byte.
 */
module Dlq {
  import opened Text
  import opened Totals
  import opened Utf8

  /** A header's name; Other stands for every name that is not one of the essential ten. */
  datatype HeaderName =
    | Traceparent
    | OriginalTopic
    | OriginalPartition
    | OriginalOffset
    | AttemptsTotal
    | DlqError
    | PayloadIntact
    | MetadataTrimmed
    | OriginalMessageSize
    | OriginalPayloadSize
    | Other(name: string)

  type Headers = map<HeaderName, Bytes>

  datatype Message = Message(
    key: Bytes, value: Bytes, topic: Bytes, partition: int, offset: int,
    timestamp: int, blockTimestamp: int, headers: Headers)

  const DLQ_ERROR_MAX_BYTES := 2 * 1024
  const SHORT_ERROR_BYTES := 256

  /** The name as it is sent. */
  function NameText(name: HeaderName): string {
    match name
    case Traceparent => "traceparent"
    case OriginalTopic => "dlq-original-topic"
    case OriginalPartition => "dlq-original-partition"
    case OriginalOffset => "dlq-original-offset"
    case AttemptsTotal => "dlq-attempts-total"
    case DlqError => "dlq-error"
    case PayloadIntact => "dlq-payload-intact"
    case MetadataTrimmed => "dlq-metadata-trimmed"
    case OriginalMessageSize => "dlq-original-message-size"
    case OriginalPayloadSize => "dlq-original-payload-size"
    case Other(text) => text
  }

  function HeaderSize(name: HeaderName, value: Bytes): nat {
    |NameText(name)| + |value|
  }

  function Ascii(s: string): (bytes: Bytes)
    ensures |bytes| == |s|
  {
    seq(|s|, i requires 0 <= i < |s| => (s[i] as int % 256) as byte)
  }

  // ----- The size of a message -----

  function Sizes(h: Headers): map<HeaderName, nat> {
    map k | k in h :: HeaderSize(k, h[k])
  }

  ghost function Size(m: Message): nat {
    |m.key| + |m.value| + Total(Sizes(m.headers))
  }

  /** The size by hand: key and payload, and for each header its name and its value. */
  lemma SizeByHeaders(m: Message, k: HeaderName, value: Bytes)
    requires k !in m.headers
    ensures Size(m.(headers := map[])) == |m.key| + |m.value|
    ensures Size(m.(headers := m.headers[k := value])) == Size(m) + |NameText(k)| + |value|
  {
    var more := m.headers[k := value];
    TotalWithout(Sizes(more), k);
    assert Sizes(more) - {k} == Sizes(m.headers);
    assert Sizes(map[]) == map[];
  }

  /** Fewer headers with values no longer make a message no bigger. */
  lemma SizeShrinks(small: Headers, big: Headers)
    requires forall k | k in small :: k in big && |small[k]| <= |big[k]|
    ensures Total(Sizes(small)) <= Total(Sizes(big))
  {
    TotalGrows(Sizes(small), Sizes(big));
  }

  /** messageSize: a loop over the headers in any order. */
  method MessageSize(m: Message) returns (size: nat)
    ensures size == Size(m)
  {
    size := |m.key| + |m.value|;
    ghost var left := Sizes(m.headers);
    var rest := m.headers.Keys;
    while rest != {}
      invariant rest <= m.headers.Keys && left.Keys == rest
      invariant forall k | k in rest :: left[k] == HeaderSize(k, m.headers[k])
      invariant size + Total(left) == Size(m)
      decreases |rest|
    {
      var k :| k in rest;
      TotalWithout(left, k);
      left := left - {k};
      size := size + HeaderSize(k, m.headers[k]);
      rest := rest - {k};
    }
  }

  ghost predicate Fits(m: Message, maxBytes: int) {
    maxBytes <= 0 || Size(m) <= maxBytes
  }

  method ShouldTruncate(m: Message, maxBytes: int) returns (tooBig: bool)
    ensures tooBig == !Fits(m, maxBytes)
    ensures tooBig <==> maxBytes > 0 && Size(m) > maxBytes
  {
    var size := MessageSize(m);
    tooBig := maxBytes > 0 && size > maxBytes;
  }

  // ----- What the message may become -----

  /** Where the message came from and why it is here. */
  function Provenance(m: Message, text: Bytes, attempts: nat): Headers {
    map[
      OriginalTopic := m.topic,
      OriginalPartition := Ascii(IntText(m.partition)),
      OriginalOffset := Ascii(IntText(m.offset)),
      AttemptsTotal := Ascii(IntText(attempts)),
      DlqError := Truncated(text, DLQ_ERROR_MAX_BYTES),
      PayloadIntact := Ascii("false")]
  }

  ghost function Bookkeeping(m: Message): Headers {
    map[
      MetadataTrimmed := Ascii("true"),
      OriginalMessageSize := Ascii(IntText(Size(m))),
      OriginalPayloadSize := Ascii(IntText(|m.value|))]
  }

  function Carrying(m: Message, headers: Headers): Message {
    m.(topic := [], headers := headers)
  }

  function EssentialOf(h: Headers): Headers {
    map k | k in h && !k.Other? :: h[k]
  }

  /** All original headers and the provenance. */
  function Full(m: Message, text: Bytes, attempts: nat): Message {
    Carrying(m, m.headers + Provenance(m, text, attempts))
  }

  /** The essential headers only. */
  ghost function Trimmed(m: Message, text: Bytes, attempts: nat): Message {
    Carrying(m, EssentialOf(Full(m, text, attempts).headers + Bookkeeping(m)))
  }

  function ShortError(m: Message): Message
    requires DlqError in m.headers
  {
    m.(headers := m.headers[DlqError := Truncated(m.headers[DlqError], SHORT_ERROR_BYTES)])
  }

  function NoError(m: Message): Message {
    m.(headers := m.headers - {DlqError})
  }

  /** The essential headers with a short error. */
  ghost function Shortened(m: Message, text: Bytes, attempts: nat): Message {
    ShortError(Trimmed(m, text, attempts))
  }

  /** The essential headers without the error. */
  ghost function Bare(m: Message, text: Bytes, attempts: nat): Message {
    NoError(Trimmed(m, text, attempts))
  }

  /** The first of the four that is within the budget, the last one if none is. */
  ghost function FirstFitting(full: Message, trimmed: Message, maxBytes: int): Message
    requires DlqError in trimmed.headers
  {
    if Fits(full, maxBytes) then full
    else if Fits(trimmed, maxBytes) then trimmed
    else if Fits(ShortError(trimmed), maxBytes) then ShortError(trimmed)
    else NoError(trimmed)
  }

  ghost function DlqMessage(m: Message, text: Bytes, attempts: nat, maxBytes: int): Message {
    FirstFitting(Full(m, text, attempts), Trimmed(m, text, attempts), maxBytes)
  }

  // ----- The source's way there -----

  /** buildDLQHeaders: a copy of the original headers, then the provenance over it. */
  method BuildDlqHeaders(m: Message, text: Bytes, attempts: nat) returns (headers: Headers)
    ensures headers == m.headers + Provenance(m, text, attempts)
  {
    headers := map[];
    var rest := m.headers.Keys;
    while rest != {}
      invariant rest <= m.headers.Keys
      invariant headers == map k | k in m.headers && k !in rest :: m.headers[k]
      decreases |rest|
    {
      var k :| k in rest;
      headers := headers[k := m.headers[k]];
      rest := rest - {k};
    }
    headers := headers[OriginalTopic := m.topic];
    headers := headers[OriginalPartition := Ascii(IntText(m.partition))];
    headers := headers[OriginalOffset := Ascii(IntText(m.offset))];
    headers := headers[AttemptsTotal := Ascii(IntText(attempts))];
    var short := TruncateUtf8Bytes(text, DLQ_ERROR_MAX_BYTES);
    headers := headers[DlqError := short];
    headers := headers[PayloadIntact := Ascii("false")];
  }

  /** trimDLQHeadersToEssential. */
  method TrimToEssential(h: Headers) returns (result: Headers)
    ensures result == EssentialOf(h)
  {
    result := map[];
    var rest := h.Keys;
    while rest != {}
      invariant rest <= h.Keys
      invariant result == map k | k in h && k !in rest && !k.Other? :: h[k]
      decreases |rest|
    {
      var k :| k in rest;
      if !k.Other? {
        result := result[k := h[k]];
      }
      rest := rest - {k};
    }
  }

  /** buildDLQMessage. */
  method BuildDlqMessage(m: Message, text: Bytes, attempts: nat, maxBytes: int) returns (r: Message)
    ensures r == DlqMessage(m, text, attempts, maxBytes)
  {
    var headers := BuildDlqHeaders(m, text, attempts);
    r := m.(topic := [], headers := headers);
    var tooBig := ShouldTruncate(r, maxBytes);
    if !tooBig {
      return;
    }
    headers := NoteAndTrim(m, headers);
    r := r.(headers := headers);
    assert r == Trimmed(m, text, attempts);
    r := FitError(r, maxBytes);
  }

  /** The middle of buildDLQMessage: what was trimmed is noted, then the essential headers stay. */
  method NoteAndTrim(m: Message, headers: Headers) returns (essential: Headers)
    ensures essential == EssentialOf(headers + Bookkeeping(m))
  {
    var noted := headers[MetadataTrimmed := Ascii("true")];
    var size := MessageSize(m);
    noted := noted[OriginalMessageSize := Ascii(IntText(size))];
    noted := noted[OriginalPayloadSize := Ascii(IntText(|m.value|))];
    assert noted == headers + Bookkeeping(m);
    essential := TrimToEssential(noted);
  }

  /** The last steps of buildDLQMessage: a shorter error, then none. */
  method FitError(m: Message, maxBytes: int) returns (r: Message)
    requires DlqError in m.headers
    ensures r == if Fits(m, maxBytes) then m
                 else if Fits(ShortError(m), maxBytes) then ShortError(m)
                 else NoError(m)
  {
    r := m;
    var tooBig := ShouldTruncate(r, maxBytes);
    if tooBig {
      var short := TruncateUtf8Bytes(r.headers[DlqError], SHORT_ERROR_BYTES);
      r := r.(headers := r.headers[DlqError := short]);
    }
    tooBig := ShouldTruncate(r, maxBytes);
    if tooBig {
      r := r.(headers := r.headers - {DlqError});
      assert r.headers == m.headers - {DlqError};
    }
    tooBig := ShouldTruncate(r, maxBytes);
  }

  // ----- What it promises -----

  /** r carries m's key, payload and position; its topic is left to the publisher. */
  predicate SameEnvelope(m: Message, r: Message) {
    && r.key == m.key && r.value == m.value && r.partition == m.partition && r.offset == m.offset
    && r.timestamp == m.timestamp && r.blockTimestamp == m.blockTimestamp && r.topic == []
  }

  /** The headers say where m came from and how often it was tried, and keep its trace. */
  predicate Traceable(m: Message, attempts: nat, h: Headers) {
    && {OriginalTopic, OriginalPartition, OriginalOffset, AttemptsTotal, PayloadIntact} <= h.Keys
    && h[OriginalTopic] == m.topic
    && h[OriginalPartition] == Ascii(IntText(m.partition))
    && h[OriginalOffset] == Ascii(IntText(m.offset))
    && h[AttemptsTotal] == Ascii(IntText(attempts))
    && h[PayloadIntact] == Ascii("false")
    && (Traceparent in m.headers ==> Traceparent in h && h[Traceparent] == m.headers[Traceparent])
  }

  lemma FullKeeps(m: Message, text: Bytes, attempts: nat)
    ensures Traceable(m, attempts, Full(m, text, attempts).headers)
  {
  }

  lemma TrimKeeps(m: Message, attempts: nat, h: Headers, notes: Headers)
    requires Traceable(m, attempts, h) && notes.Keys == {MetadataTrimmed, OriginalMessageSize, OriginalPayloadSize}
    ensures Traceable(m, attempts, EssentialOf(h + notes))
  {
  }

  /** A header with this name and value is there. */
  ghost predicate HasHeader(h: Headers, name: string, value: Bytes) {
    exists k :: k in h && NameText(k) == name && h[k] == value
  }

  /** The same by the names as they are sent. */
  lemma TraceableByName(m: Message, attempts: nat, h: Headers)
    requires Traceable(m, attempts, h)
    ensures HasHeader(h, "dlq-original-topic", m.topic)
    ensures HasHeader(h, "dlq-original-partition", Ascii(IntText(m.partition)))
    ensures HasHeader(h, "dlq-original-offset", Ascii(IntText(m.offset)))
    ensures HasHeader(h, "dlq-attempts-total", Ascii(IntText(attempts)))
    ensures HasHeader(h, "dlq-payload-intact", Ascii("false"))
    ensures Traceparent in m.headers ==> HasHeader(h, "traceparent", m.headers[Traceparent])
  {
    assert NameText(OriginalTopic) == "dlq-original-topic" && NameText(OriginalPartition) == "dlq-original-partition";
    assert NameText(OriginalOffset) == "dlq-original-offset" && NameText(AttemptsTotal) == "dlq-attempts-total";
    assert NameText(PayloadIntact) == "dlq-payload-intact" && NameText(Traceparent) == "traceparent";
  }

  lemma NotesByName(m: Message, size: nat, h: Headers)
    requires IsTrimmed(m, size, h)
    ensures HasHeader(h, "dlq-metadata-trimmed", Ascii("true"))
    ensures HasHeader(h, "dlq-original-message-size", Ascii(IntText(size)))
    ensures HasHeader(h, "dlq-original-payload-size", Ascii(IntText(|m.value|)))
    ensures DlqError in h ==> HasHeader(h, "dlq-error", h[DlqError])
  {
    assert NameText(MetadataTrimmed) == "dlq-metadata-trimmed" && NameText(OriginalMessageSize) == "dlq-original-message-size";
    assert NameText(OriginalPayloadSize) == "dlq-original-payload-size" && NameText(DlqError) == "dlq-error";
  }

  lemma ErrorIsNoTrace(m: Message, attempts: nat, r: Message)
    requires DlqError in r.headers && SameEnvelope(m, r) && Traceable(m, attempts, r.headers)
    ensures SameEnvelope(m, ShortError(r)) && Traceable(m, attempts, ShortError(r).headers)
    ensures SameEnvelope(m, NoError(r)) && Traceable(m, attempts, NoError(r).headers)
  {
  }

  lemma FirstFittingKeeps(m: Message, attempts: nat, full: Message, trimmed: Message, maxBytes: int)
    requires DlqError in trimmed.headers
    requires SameEnvelope(m, full) && Traceable(m, attempts, full.headers)
    requires SameEnvelope(m, trimmed) && Traceable(m, attempts, trimmed.headers)
    ensures
      var r := FirstFitting(full, trimmed, maxBytes);
      SameEnvelope(m, r) && Traceable(m, attempts, r.headers)
  {
    ErrorIsNoTrace(m, attempts, trimmed);
  }

  /** Key, payload and position never change, and the message stays traceable whatever is trimmed. */
  lemma PayloadAndProvenanceKept(m: Message, text: Bytes, attempts: nat, maxBytes: int)
    ensures
      var r := DlqMessage(m, text, attempts, maxBytes);
      SameEnvelope(m, r) && Traceable(m, attempts, r.headers)
  {
    FullKeeps(m, text, attempts);
    TrimKeeps(m, attempts, Full(m, text, attempts).headers, Bookkeeping(m));
    FirstFittingKeeps(m, attempts, Full(m, text, attempts), Trimmed(m, text, attempts), maxBytes);
  }

  /** The ten names that survive trimming. */
  predicate IsEssential(name: string) {
    || name == "traceparent" || name == "dlq-original-topic" || name == "dlq-original-partition"
    || name == "dlq-original-offset" || name == "dlq-attempts-total" || name == "dlq-error"
    || name == "dlq-payload-intact" || name == "dlq-metadata-trimmed"
    || name == "dlq-original-message-size" || name == "dlq-original-payload-size"
  }

  /** The headers of the original message have other names than Other(..) for the essential ones. */
  predicate NamedOnce(h: Headers) {
    forall k | k in h && k.Other? :: !IsEssential(k.name)
  }

  /** A message with all headers has every original header that the provenance does not replace. */
  predicate HasAll(m: Message, h: Headers) {
    forall k | k in m.headers && k !in {OriginalTopic, OriginalPartition, OriginalOffset, AttemptsTotal, DlqError, PayloadIntact} ::
      k in h && h[k] == m.headers[k]
  }

  /** A trimmed message has essential names only, and notes the sizes it had. */
  predicate IsTrimmed(m: Message, size: nat, h: Headers) {
    && (forall k | k in h :: IsEssential(NameText(k)))
    && {MetadataTrimmed, OriginalMessageSize, OriginalPayloadSize} <= h.Keys
    && h[MetadataTrimmed] == Ascii("true")
    && h[OriginalMessageSize] == Ascii(IntText(size))
    && h[OriginalPayloadSize] == Ascii(IntText(|m.value|))
  }

  /** Every header with an essential name is kept by trimming as it was. */
  lemma EssentialKept(h: Headers, k: HeaderName)
    requires NamedOnce(h)
    ensures k in EssentialOf(h) <==> k in h && IsEssential(NameText(k))
    ensures k in EssentialOf(h) ==> EssentialOf(h)[k] == h[k]
  {
  }

  /** Nothing but the error is lost or changed while the message fits; else only essential headers are left, with the sizes. */
  lemma AllOrTrimmed(m: Message, text: Bytes, attempts: nat, maxBytes: int)
    ensures
      var r := DlqMessage(m, text, attempts, maxBytes);
      if Fits(Full(m, text, attempts), maxBytes) then HasAll(m, r.headers) else IsTrimmed(m, Size(m), r.headers)
  {
    FullHasAll(m, text, attempts);
    TrimmingLeaves(m, Full(m, text, attempts).headers);
    ErrorStepsLeave(m, Trimmed(m, text, attempts));
    FirstFittingLeaves(m, Full(m, text, attempts), Trimmed(m, text, attempts), maxBytes);
  }

  lemma FullHasAll(m: Message, text: Bytes, attempts: nat)
    ensures HasAll(m, Full(m, text, attempts).headers)
  {
  }

  lemma TrimmingLeaves(m: Message, h: Headers)
    ensures IsTrimmed(m, Size(m), EssentialOf(h + Bookkeeping(m)))
  {
    forall k | k in EssentialOf(h + Bookkeeping(m)) ensures IsEssential(NameText(k)) {
      EssentialName(k);
    }
  }

  lemma EssentialName(k: HeaderName)
    requires !k.Other?
    ensures IsEssential(NameText(k))
  {
  }

  lemma ErrorStepsLeave(m: Message, r: Message)
    requires DlqError in r.headers && IsTrimmed(m, Size(m), r.headers)
    ensures IsTrimmed(m, Size(m), ShortError(r).headers) && IsTrimmed(m, Size(m), NoError(r).headers)
  {
  }

  lemma FirstFittingLeaves(m: Message, full: Message, trimmed: Message, maxBytes: int)
    requires DlqError in trimmed.headers && IsTrimmed(m, Size(m), trimmed.headers) && HasAll(m, full.headers)
    requires IsTrimmed(m, Size(m), ShortError(trimmed).headers) && IsTrimmed(m, Size(m), NoError(trimmed).headers)
    ensures
      var r := FirstFitting(full, trimmed, maxBytes);
      if Fits(full, maxBytes) then HasAll(m, r.headers) else IsTrimmed(m, Size(m), r.headers)
  {
  }

  lemma ErrorStepsShrink(m: Message)
    requires DlqError in m.headers
    ensures Size(NoError(m)) <= Size(ShortError(m)) <= Size(m)
  {
    SizeShrinks(NoError(m).headers, ShortError(m).headers);
    SizeShrinks(ShortError(m).headers, m.headers);
  }

  /** The result is within the budget exactly when all headers are, or the essential ones without the error. */
  lemma FitsExactly(m: Message, text: Bytes, attempts: nat, maxBytes: int)
    ensures
      Fits(DlqMessage(m, text, attempts, maxBytes), maxBytes)
      <==> Fits(Full(m, text, attempts), maxBytes) || Fits(Bare(m, text, attempts), maxBytes)
  {
    ErrorStepsShrink(Trimmed(m, text, attempts));
  }

  /** The error is dropped only when even its short form does not fit. */
  lemma ErrorDroppedOnlyIfNeeded(m: Message, text: Bytes, attempts: nat, maxBytes: int)
    ensures
      DlqError in DlqMessage(m, text, attempts, maxBytes).headers
      <==> Fits(Full(m, text, attempts), maxBytes) || Fits(Shortened(m, text, attempts), maxBytes)
  {
    ErrorStepsShrink(Trimmed(m, text, attempts));
  }

  /** The error header is the cut text, or its short form if the message fits neither in full nor trimmed. */
  lemma ErrorHeader(m: Message, text: Bytes, attempts: nat, maxBytes: int)
    ensures
      var h, cut := DlqMessage(m, text, attempts, maxBytes).headers, Truncated(text, DLQ_ERROR_MAX_BYTES);
      DlqError in h ==>
        h[DlqError] == if Fits(Full(m, text, attempts), maxBytes) || Fits(Trimmed(m, text, attempts), maxBytes) then cut
                       else Truncated(cut, SHORT_ERROR_BYTES)
  {
  }

  /** An error header is a valid prefix of a valid error text, at most 3 bytes below the cut. */
  lemma ErrorHeaderIsValidPrefix(m: Message, text: Bytes, attempts: nat, maxBytes: int)
    requires Valid(text)
    ensures
      var h := DlqMessage(m, text, attempts, maxBytes).headers;
      DlqError in h ==>
        && Valid(h[DlqError]) && h[DlqError] <= text
        && |h[DlqError]| <= 2048
        && (h[DlqError] == text || |h[DlqError]| >= 256 - 3)
        && (Fits(Full(m, text, attempts), maxBytes) || Fits(Trimmed(m, text, attempts), maxBytes) ==>
              h[DlqError] == text || |h[DlqError]| >= 2048 - 3)
  {
    ErrorHeader(m, text, attempts, maxBytes);
    CutIsValidPrefix(text, DLQ_ERROR_MAX_BYTES);
    CutIsValidPrefix(Truncated(text, DLQ_ERROR_MAX_BYTES), SHORT_ERROR_BYTES);
  }
}
