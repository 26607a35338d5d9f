/** The feedback record and the intake validator that builds it from an
    untyped request body. */
module Feedback {
  import opened Wrappers

  /** Status of a record that still has to be relayed downstream. */
  const Pending: string := "pending"
  /** Status of a record the downstream processor has accepted. */
  const Processed: string := "processed"

  /** Opaque key/value metadata; the values stand for JSON values. */
  type Metadata = map<string, string>

  /** JavaScript truthiness of an optional JSON string: absent, null and
      the empty string are falsy. */
  predicate Truthy(v: Option<string>) {
    v.Some? && v.value != ""
  }

  /** JavaScript truthiness of an optional JSON number: absent, null and
      zero are falsy. */
  predicate TruthyNumber(v: Option<int>) {
    v.Some? && v.value != 0
  }

  /** The fields a request body may carry. Each one is absent/null (`None`)
      or a value of the JSON type the record expects; nothing about the
      values themselves is checked. */
  datatype Payload = Payload(
    id: Option<string>,
    source: Option<string>,
    source_id: Option<string>,
    title: Option<string>,
    content: Option<string>,
    author: Option<string>,
    author_email: Option<string>,
    status: Option<string>,
    metadata: Option<Metadata>,
    created_at: Option<int>,
    updated_at: Option<int>)

  /** A feedback record as the worker handles it in memory. `source` and
      `status` are plain strings: neither is checked against its enum. */
  datatype Feedback = Feedback(
    id: string,
    source: string,
    source_id: Option<string>,
    title: Option<string>,
    content: string,
    author: Option<string>,
    author_email: Option<string>,
    status: string,
    metadata: Metadata,
    created_at: int,
    updated_at: int)

  /** `Math.floor(Date.now() / 1000)`: whole seconds of a millisecond clock. */
  function EpochSeconds(clockMs: nat): (s: nat)
    ensures s * 1000 <= clockMs < (s + 1) * 1000
  {
    clockMs / 1000
  }

  /** `v || fallback` for a string field. */
  function OrString(v: Option<string>, fallback: string): (r: string)
    ensures Truthy(v) ==> r == v.value
    ensures !Truthy(v) ==> r == fallback
  {
    if Truthy(v) then v.value else fallback
  }

  /** `v || fallback` for a numeric field. */
  function OrNumber(v: Option<int>, fallback: int): (r: int)
    ensures TruthyNumber(v) ==> r == v.value
    ensures !TruthyNumber(v) ==> r == fallback
  {
    if TruthyNumber(v) then v.value else fallback
  }

  /** The fields every record must carry for the store and the relay loop:
      a key, a source, a body and a status. */
  predicate WellFormed(f: Feedback) {
    f.id != "" && f.source != "" && f.content != "" && f.status != ""
  }

  /** The intake validator. `body` is `None` for a falsy or non-object body;
      the clock reading and the freshly generated id are supplied by the
      caller (the source reads `Date.now()` and builds an `fb-…` token). */
  function ParseFeedback(body: Option<Payload>, clockMs: nat, generatedId: string): (r: Option<Feedback>)
    requires generatedId != ""
    ensures r.None? <==> body.None? || !Truthy(body.value.content) || !Truthy(body.value.source)
    ensures r.Some? ==> WellFormed(r.value)
    ensures r.Some? ==> r.value.source == body.value.source.value && r.value.content == body.value.content.value
  {
    if body.None? || !Truthy(body.value.content) || !Truthy(body.value.source) then
      None
    else
      var p := body.value;
      var now := EpochSeconds(clockMs);
      Some(Feedback(
        id := OrString(p.id, generatedId),
        source := p.source.value,
        source_id := p.source_id,
        title := p.title,
        content := p.content.value,
        author := p.author,
        author_email := p.author_email,
        status := OrString(p.status, Pending),
        metadata := p.metadata.GetOr(map[]),
        created_at := OrNumber(p.created_at, now),
        updated_at := OrNumber(p.updated_at, now)))
  }

  /** A body that names only a source and a content. */
  function MinimalPayload(source: string, content: string): Payload {
    Payload(None, Some(source), None, None, Some(content), None, None, None, None, None, None)
  }

  /** Each defaulted field takes the body's value when that value is truthy
      and its default otherwise; the optional strings are copied verbatim,
      falsy or not. */
  lemma ParseDefaults(p: Payload, clockMs: nat, generatedId: string)
    requires generatedId != ""
    requires Truthy(p.content) && Truthy(p.source)
    ensures ParseFeedback(Some(p), clockMs, generatedId).Some?
    ensures var f := ParseFeedback(Some(p), clockMs, generatedId).value;
      && (Truthy(p.id) ==> f.id == p.id.value)
      && (!Truthy(p.id) ==> f.id == generatedId)
      && (Truthy(p.status) ==> f.status == p.status.value)
      && (!Truthy(p.status) ==> f.status == Pending)
      && (p.metadata.None? ==> f.metadata == map[])
      && (p.metadata.Some? ==> f.metadata == p.metadata.value)
      && (TruthyNumber(p.created_at) ==> f.created_at == p.created_at.value)
      && (!TruthyNumber(p.created_at) ==> f.created_at == EpochSeconds(clockMs))
      && (TruthyNumber(p.updated_at) ==> f.updated_at == p.updated_at.value)
      && (!TruthyNumber(p.updated_at) ==> f.updated_at == EpochSeconds(clockMs))
      && f.source_id == p.source_id && f.title == p.title
      && f.author == p.author && f.author_email == p.author_email
  {
  }

  /** A body with just a source and a content gets a fresh id, status
      `pending`, empty metadata and both timestamps equal to the clock. */
  lemma MinimalPayloadDefaults(source: string, content: string, clockMs: nat, generatedId: string)
    requires generatedId != "" && source != "" && content != ""
    ensures var r := ParseFeedback(Some(MinimalPayload(source, content)), clockMs, generatedId);
      && r.Some?
      && r.value.id == generatedId
      && r.value.status == Pending
      && r.value.metadata == map[]
      && r.value.created_at == r.value.updated_at == EpochSeconds(clockMs)
  {
  }

  /** The validator does not check the source against the six recognised
      sources, nor the status against the three statuses: any non-empty
      strings pass through. */
  lemma ParseAcceptsAnySourceAndStatus(source: string, status: string, content: string, clockMs: nat, generatedId: string)
    requires generatedId != "" && source != "" && status != "" && content != ""
    ensures var p := MinimalPayload(source, content).(status := Some(status));
      var r := ParseFeedback(Some(p), clockMs, generatedId);
      r.Some? && r.value.source == source && r.value.status == status
  {
  }

  /** Caller-supplied timestamps are trusted verbatim: any non-zero
      `created_at` and `updated_at` of an accepted body are kept as they are,
      whatever their order. */
  lemma ParseTrustsTimestamps(p: Payload, clockMs: nat, generatedId: string)
    requires generatedId != ""
    requires Truthy(p.content) && Truthy(p.source)
    requires TruthyNumber(p.created_at) && TruthyNumber(p.updated_at)
    ensures var r := ParseFeedback(Some(p), clockMs, generatedId);
      r.Some? && r.value.created_at == p.created_at.value && r.value.updated_at == p.updated_at.value
  {
  }

  /** The ordering of the two timestamps is therefore not an invariant of parsed
      records: a body whose `updated_at` precedes its `created_at` is
      accepted as it is. */
  lemma ParsedTimestampsMayBeOutOfOrder(clockMs: nat, generatedId: string)
    requires generatedId != ""
    ensures var p := MinimalPayload("email", "hello").(created_at := Some(20), updated_at := Some(10));
      var r := ParseFeedback(Some(p), clockMs, generatedId);
      r.Some? && r.value.created_at == 20 && r.value.updated_at == 10
  {
    var p := MinimalPayload("email", "hello").(created_at := Some(20), updated_at := Some(10));
    ParseTrustsTimestamps(p, clockMs, generatedId);
  }
}
