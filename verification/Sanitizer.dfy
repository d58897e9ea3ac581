/** The structural sanitiser of buyer/app/persistence.py and the summary of storage-state replies. */
module Sanitizer {
  import opened Common
  import PyText

  datatype Json =
    | JNull
    | JBool(b: bool)
    | JNum(n: real)
    | JStr(s: string)
    | JList(items: seq<Json>)
    | JObj(fields: map<string, Json>)

  // ----- which keys are sensitive

  const AUTH_BLOCKED: set<string> :=
    {"storagestate", "storagestatepath", "cookies", "cookie", "origins", "localstorage", "authorization"}
  const AUTH_MARKERS: set<string> := {"token", "secret", "password", "apikey", "authorizationcode"}
  const METADATA_BLOCKED: set<string> :=
    AUTH_BLOCKED + {"stdout", "stdouttail", "stderr", "stderrtail", "promptpreview"}
  const METADATA_MARKERS: set<string> := AUTH_MARKERS + {"stdout", "stderr"}

  function Without(s: string, c: char): string {
    if s == "" then "" else (if s[0] == c then "" else [s[0]]) + Without(s[1..], c)
  }

  function NormalizedKey(key: string): string {
    PyText.Lower(Without(Without(Without(key, '_'), '-'), ' '))
  }

  predicate IsBlockedKey(key: string, blocked: set<string>, markers: set<string>) {
    var compact := NormalizedKey(key);
    compact in blocked || exists m | m in markers :: PyText.Contains(compact, m)
  }

  predicate MetadataBlocks(key: string) {
    IsBlockedKey(key, METADATA_BLOCKED, METADATA_MARKERS)
  }

  // ----- the sanitiser

  const MAX_DEPTH: nat := 8
  const MAX_ITEMS: nat := 100
  const TRUNCATED := JStr("[truncated]")

  function Sanitize(v: Json, blocks: string -> bool, depth: nat): Json
    decreases MAX_DEPTH + 1 - depth
  {
    if depth > MAX_DEPTH then TRUNCATED
    else
      match v
      case JObj(fields) => JObj(map k | k in fields && !blocks(k) :: Sanitize(fields[k], blocks, depth + 1))
      case JList(items) =>
        JList(seq(Min(|items|, MAX_ITEMS), i requires 0 <= i < |items| => Sanitize(items[i], blocks, depth + 1)))
      case _ => v
  }

  /** Nothing is left for the sanitiser to do at this depth. */
  predicate IsClean(v: Json, blocks: string -> bool, depth: nat)
    decreases MAX_DEPTH + 1 - depth
  {
    if depth > MAX_DEPTH then v == TRUNCATED
    else
      match v
      case JObj(fields) => forall k | k in fields :: !blocks(k) && IsClean(fields[k], blocks, depth + 1)
      case JList(items) =>
        |items| <= MAX_ITEMS && forall i | 0 <= i < |items| :: IsClean(items[i], blocks, depth + 1)
      case _ => true
  }

  lemma {:induction false} SanitizedIsClean(v: Json, blocks: string -> bool, depth: nat)
    ensures IsClean(Sanitize(v, blocks, depth), blocks, depth)
    decreases MAX_DEPTH + 1 - depth
  {
    if depth <= MAX_DEPTH {
      match v
      case JObj(fields) =>
        forall k | k in fields && !blocks(k) { SanitizedIsClean(fields[k], blocks, depth + 1); }
      case JList(items) =>
        forall i | 0 <= i < |items| { SanitizedIsClean(items[i], blocks, depth + 1); }
      case _ =>
    }
  }

  lemma FieldsAreFixed(fields: map<string, Json>, blocks: string -> bool, depth: nat)
    requires depth <= MAX_DEPTH
    requires forall k | k in fields :: !blocks(k) && Sanitize(fields[k], blocks, depth + 1) == fields[k]
    ensures Sanitize(JObj(fields), blocks, depth) == JObj(fields)
  {
    assert (map k | k in fields && !blocks(k) :: Sanitize(fields[k], blocks, depth + 1)) == fields;
  }

  lemma ItemsAreFixed(items: seq<Json>, blocks: string -> bool, depth: nat)
    requires depth <= MAX_DEPTH && |items| <= MAX_ITEMS
    requires forall i | 0 <= i < |items| :: Sanitize(items[i], blocks, depth + 1) == items[i]
    ensures Sanitize(JList(items), blocks, depth) == JList(items)
  {
    assert Sanitize(JList(items), blocks, depth).items == items;
  }

  lemma {:induction false} CleanIsFixed(v: Json, blocks: string -> bool, depth: nat)
    requires IsClean(v, blocks, depth)
    ensures Sanitize(v, blocks, depth) == v
    decreases MAX_DEPTH + 1 - depth
  {
    if depth <= MAX_DEPTH {
      match v
      case JObj(fields) =>
        forall k | k in fields { CleanIsFixed(fields[k], blocks, depth + 1); }
        FieldsAreFixed(fields, blocks, depth);
      case JList(items) =>
        forall i | 0 <= i < |items| { CleanIsFixed(items[i], blocks, depth + 1); }
        ItemsAreFixed(items, blocks, depth);
      case _ =>
    }
  }

  /** The sanitiser leaves a tree alone exactly when it is clean, so sanitising twice is sanitising once. */
  lemma SanitizeFixesExactlyClean(v: Json, blocks: string -> bool, depth: nat)
    ensures Sanitize(v, blocks, depth) == v <==> IsClean(v, blocks, depth)
    ensures Sanitize(Sanitize(v, blocks, depth), blocks, depth) == Sanitize(v, blocks, depth)
  {
    SanitizedIsClean(v, blocks, depth);
    CleanIsFixed(Sanitize(v, blocks, depth), blocks, depth);
    if IsClean(v, blocks, depth) {
      CleanIsFixed(v, blocks, depth);
    }
  }

  /** `_serialize_event_payload_for_storage`. */
  function StoredPayload(payload: map<string, Json>): map<string, Json> {
    Sanitize(JObj(payload), MetadataBlocks, 0).fields
  }

  lemma StoredPayloadIdempotent(payload: map<string, Json>)
    ensures StoredPayload(StoredPayload(payload)) == StoredPayload(payload)
  {
    SanitizeFixesExactlyClean(JObj(payload), MetadataBlocks, 0);
  }

  // ----- what a sanitised tree looks like, level by level

  /** No object anywhere in the tree has a blocked key. */
  predicate NoBlockedKey(v: Json, blocks: string -> bool) {
    match v
    case JObj(fields) => forall k | k in fields :: !blocks(k) && NoBlockedKey(fields[k], blocks)
    case JList(items) => forall i | 0 <= i < |items| :: NoBlockedKey(items[i], blocks)
    case _ => true
  }

  /** Containers nest at most `height` deep and no list is longer than the limit. */
  predicate FitsIn(v: Json, height: nat)
    decreases height
  {
    match v
    case JObj(fields) => height > 0 && forall k | k in fields :: FitsIn(fields[k], height - 1)
    case JList(items) =>
      height > 0 && |items| <= MAX_ITEMS && forall i | 0 <= i < |items| :: FitsIn(items[i], height - 1)
    case _ => true
  }

  lemma {:induction false} CleanIsSafe(v: Json, blocks: string -> bool, depth: nat)
    requires depth <= MAX_DEPTH + 1 && IsClean(v, blocks, depth)
    ensures NoBlockedKey(v, blocks) && FitsIn(v, MAX_DEPTH + 1 - depth)
    decreases MAX_DEPTH + 1 - depth
  {
    if depth <= MAX_DEPTH {
      match v
      case JObj(fields) => forall k | k in fields { CleanIsSafe(fields[k], blocks, depth + 1); }
      case JList(items) => forall i | 0 <= i < |items| { CleanIsSafe(items[i], blocks, depth + 1); }
      case _ =>
    }
  }

  /** Whatever goes in, no blocked key, no deep nesting and no long list comes out. */
  lemma SanitizedIsSafe(v: Json, blocks: string -> bool)
    ensures NoBlockedKey(Sanitize(v, blocks, 0), blocks)
    ensures FitsIn(Sanitize(v, blocks, 0), MAX_DEPTH + 1)
  {
    SanitizedIsClean(v, blocks, 0);
    CleanIsSafe(Sanitize(v, blocks, 0), blocks, 0);
  }

  // ----- what survives

  datatype Segment = Key(k: string) | Index(i: nat)

  function Child(v: Json, p: Segment): Option<Json> {
    match (v, p)
    case (JObj(fields), Key(k)) => if k in fields then Some(fields[k]) else None
    case (JList(items), Index(i)) => if i < |items| then Some(items[i]) else None
    case _ => None
  }

  function Lookup(v: Json, path: seq<Segment>): Option<Json>
    decreases |path|
  {
    if path == [] then Some(v)
    else
      match Child(v, path[0])
      case None => None
      case Some(u) => Lookup(u, path[1..])
  }

  lemma LookupStep(v: Json, path: seq<Segment>)
    requires path != []
    ensures Lookup(v, path) == if Child(v, path[0]).Some? then Lookup(Child(v, path[0]).value, path[1..]) else None
  {
  }

  predicate AdmitsSegment(p: Segment, blocks: string -> bool) {
    match p
    case Key(k) => !blocks(k)
    case Index(i) => i < MAX_ITEMS
  }

  predicate Admits(path: seq<Segment>, blocks: string -> bool) {
    forall n | 0 <= n < |path| :: AdmitsSegment(path[n], blocks)
  }

  lemma AdmitsStep(path: seq<Segment>, blocks: string -> bool)
    requires path != []
    ensures Admits(path, blocks) <==> AdmitsSegment(path[0], blocks) && Admits(path[1..], blocks)
  {
    assert forall n | 0 <= n < |path| - 1 :: path[1..][n] == path[n + 1];
    assert forall n | 0 < n < |path| :: path[n] == path[1..][n - 1];
  }

  /** One level: an inadmissible child is dropped, any other is sanitised one level deeper. */
  lemma SanitizeKeepsChild(v: Json, blocks: string -> bool, depth: nat, p: Segment)
    requires depth <= MAX_DEPTH
    ensures Child(Sanitize(v, blocks, depth), p)
         == if AdmitsSegment(p, blocks) && Child(v, p).Some?
            then Some(Sanitize(Child(v, p).value, blocks, depth + 1))
            else None
  {
  }

  /** What a sanitised tree should hold under this path. */
  function Kept(v: Json, blocks: string -> bool, depth: nat, path: seq<Segment>): Option<Json> {
    if Admits(path, blocks) && Lookup(v, path).Some?
    then Some(Sanitize(Lookup(v, path).value, blocks, depth + |path|))
    else None
  }

  lemma KeptStep(v: Json, blocks: string -> bool, depth: nat, path: seq<Segment>)
    requires path != []
    ensures Kept(v, blocks, depth, path)
         == if AdmitsSegment(path[0], blocks) && Child(v, path[0]).Some?
            then Kept(Child(v, path[0]).value, blocks, depth + 1, path[1..])
            else None
  {
    AdmitsStep(path, blocks);
    LookupStep(v, path);
  }

  /**
   * Below the depth limit the sanitiser drops the paths through a blocked key or past the list
   * limit, and nothing else: under every other path it leaves the sanitised original.
   */
  lemma {:induction false} SanitizeKeepsTheRest(v: Json, blocks: string -> bool, depth: nat, path: seq<Segment>)
    requires depth + |path| <= MAX_DEPTH + 1
    ensures Lookup(Sanitize(v, blocks, depth), path) == Kept(v, blocks, depth, path)
    decreases |path|
  {
    if path != [] {
      KeptStep(v, blocks, depth, path);
      SanitizeKeepsChild(v, blocks, depth, path[0]);
      LookupStep(Sanitize(v, blocks, depth), path);
      if Child(v, path[0]).Some? {
        SanitizeKeepsTheRest(Child(v, path[0]).value, blocks, depth + 1, path[1..]);
      }
    }
  }

  // ----- replies that carry a storage state

  const MARKER := "[SBERID_AUTH_RECEIVED]"

  /** JSON parsing and Python's `str` of a non-text value, which this model does not look into. */
  datatype Codec = Codec(parse: string -> Option<Json>, show: Json -> string) {
    /** No JSON text is empty or starts with `[S`: section 3 of RFC 8259 has no value that begins with S. */
    ghost predicate Valid() {
      && parse("") == None
      && forall text: string :: |text| >= 2 && text[..2] == "[S" ==> parse(text) == None
    }
  }

  function Field(v: Json, key: string): Json {
    if v.JObj? && key in v.fields then v.fields[key] else JNull
  }

  function ListSize(v: Json): nat {
    if v.JList? then |v.items| else 0
  }

  predicate IsTruthy(v: Json) {
    match v
    case JNull => false
    case JBool(b) => b
    case JNum(n) => n != 0.0
    case JStr(s) => s != ""
    case JList(items) => items != []
    case JObj(fields) => fields != map[]
  }

  predicate IsSafeChar(c: char) {
    'a' <= c <= 'z' || 'A' <= c <= 'Z' || '0' <= c <= '9' || c in {'-', '_', '.'}
  }

  function SafeChars(s: string): string {
    if s == "" then "" else (if IsSafeChar(s[0]) then [s[0]] else "") + SafeChars(s[1..])
  }

  function SafeValue(v: Json, codec: Codec): string {
    var text := if v.JStr? then v.s else if IsTruthy(v) then codec.show(v) else "";
    var cleaned := SafeChars(PyText.Lower(PyText.Strip(text)));
    var shown := if cleaned == "" then "unknown" else cleaned;
    shown[..Min(|shown|, 40)]
  }

  function Digits(n: nat): string {
    (if n < 10 then "" else Digits(n / 10)) + [(n % 10) as char + '0']
  }

  function OriginEntries(origins: seq<Json>): nat {
    if origins == [] then 0 else ListSize(Field(origins[0], "localStorage")) + OriginEntries(origins[1..])
  }

  /** The storage state inside a reply, if the reply carries one. */
  function StorageStateOf(candidate: Json): Option<Json>
    requires candidate.JObj?
  {
    var hasKey := "storageState" in candidate.fields || "storage_state" in candidate.fields;
    var named := if "storageState" in candidate.fields then Field(candidate, "storageState")
                 else Field(candidate, "storage_state");
    if named.JNull? && (Field(candidate, "cookies").JList? || Field(candidate, "origins").JList?)
    then Some(candidate)
    else if hasKey then Some(named)
    else None
  }

  function Details(candidate: Json, state: Json, codec: Codec): string {
    var provider := Field(candidate, "provider");
    var cookies, origins := Field(state, "cookies"), Field(state, "origins");
    " provider=" + SafeValue(if IsTruthy(provider) then provider else JStr("sberid"), codec)
    + " status=" + (if cookies.JList? && origins.JList? then "valid_shape" else "invalid_shape")
    + " state_entries=" + Digits(ListSize(cookies))
    + " origin_entries=" + Digits(ListSize(origins))
    + " origin_storage_entries=" + Digits(if origins.JList? then OriginEntries(origins.items) else 0)
  }

  function Summarize(raw: string, codec: Codec): Option<string> {
    match codec.parse(PyText.Strip(raw))
    case Some(JObj(fields)) =>
      var payload := JObj(fields);
      var candidate := if Field(payload, "auth").JObj? then Field(payload, "auth") else payload;
      (match StorageStateOf(candidate)
       case None => None
       case Some(state) => Some(MARKER + Details(candidate, state, codec)))
    case _ => None
  }

  function SanitizeText(raw: string, codec: Codec): string {
    match Summarize(raw, codec)
    case Some(summary) => summary
    case None => raw
  }

  lemma {:induction false} StripRightKeepsFront(s: string, n: nat)
    requires 0 < n <= |s| && !PyText.IsSpace(s[n - 1])
    ensures |PyText.StripRight(s)| >= n && PyText.StripRight(s)[..n] == s[..n]
    decreases |s|
  {
    if PyText.IsSpace(s[|s| - 1]) {
      StripRightKeepsFront(s[..|s| - 1], n);
    }
  }

  lemma SummaryIsMarked(raw: string, codec: Codec)
    ensures var r := Summarize(raw, codec);
      r.Some? ==> |r.value| >= 2 && r.value[..2] == "[S"
  {
    match codec.parse(PyText.Strip(raw))
    case Some(JObj(fields)) =>
      var payload := JObj(fields);
      var candidate := if Field(payload, "auth").JObj? then Field(payload, "auth") else payload;
      if StorageStateOf(candidate).Some? {
        var details := Details(candidate, StorageStateOf(candidate).value, codec);
        assert (MARKER + details)[..2] == MARKER[..2] == "[S";
      }
    case _ =>
  }

  lemma StripKeepsMark(text: string)
    requires |text| >= 2 && text[..2] == "[S"
    ensures |PyText.Strip(text)| >= 2 && PyText.Strip(text)[..2] == "[S"
  {
    var mark := "[S";
    assert text[0] == text[..2][0] == mark[0];
    assert text[1] == text[..2][1] == mark[1];
    assert PyText.StripLeft(text) == text;
    StripRightKeepsFront(text, 2);
  }

  lemma MarkedIsNoStorageState(text: string, codec: Codec)
    requires codec.Valid() && |text| >= 2 && text[..2] == "[S"
    ensures Summarize(text, codec) == None
  {
    StripKeepsMark(text);
    assert codec.parse(PyText.Strip(text)) == None;
  }

  /** A summarised reply is never taken for a storage state again, and no reply becomes empty. */
  lemma SanitizeTextIdempotent(raw: string, codec: Codec)
    requires codec.Valid()
    ensures SanitizeText(SanitizeText(raw, codec), codec) == SanitizeText(raw, codec)
    ensures SanitizeText(raw, codec) == "" <==> raw == ""
  {
    SummaryIsMarked(raw, codec);
    if Summarize(raw, codec).Some? {
      MarkedIsNoStorageState(Summarize(raw, codec).value, codec);
    }
  }
}
