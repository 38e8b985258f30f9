/**
 * Compaction under the size the code measures: the bytes of the JSON request that carries the payload. The results are
 * about payloads as the executor builds them, with a list of host entries or one text as the result.
 */
module CompactionSize {
  import opened Json
  import opened JsonSize
  import opened Compaction
  import X = JsonText

  /** `{"args": [` and `], "kwargs": {}}` around the payload. */
  ghost function RequestSize(p: Fields): nat {
    26 + Bytes(Dict(p))
  }

  /** The request that is sent. */
  function Request(p: Fields): Value {
    Dict(map["args" := List([Dict(p)]), "kwargs" := Dict(map[])])
  }

  lemma RequestBytes(p: Fields)
    ensures Bytes(Request(p)) == RequestSize(p)
  {
    var m := map["args" := List([Dict(p)]), "kwargs" := Dict(map[])];
    assert |"args"| == 4 && |"kwargs"| == 6;
    assert "args" in m;
    DictBytes(m);
    BodyWithout(m, "args");
    BodyWithout(m - {"args"}, "kwargs");
    assert m - {"args"} - {"kwargs"} == map[];
    PlainBytes("args");
    PlainBytes("kwargs");
    assert ListBytes([Dict(p)]) == Bytes(Dict(p)) + 2;
  }

  /** The size is the number of UTF-8 bytes of the request's JSON text, whichever way its fields are ordered, and there
      is such a text. */
  lemma SizeIsRequestLength(p: Fields)
    ensures exists t :: X.Writes(Request(p), t)
    ensures forall t :: X.Writes(Request(p), t) ==> X.Utf8Length(t) == RequestSize(p)
  {
    X.HasText(Request(p));
    forall t | X.Writes(Request(p), t) ensures X.Utf8Length(t) == RequestSize(p) {
      X.TextHasBytes(Request(p), t);
      RequestBytes(p);
    }
  }

  // ---- What the executor builds ----

  /** A host's entry: a dictionary whose three texts are there. */
  predicate HasTexts(item: Value) {
    item.Dict? && forall k | k in TEXTS :: k in item.fields && item.fields[k].Str?
  }

  predicate BuiltResult(v: Value) {
    v.Str? || (v.List? && forall i :: 0 <= i < |v.items| ==> HasTexts(v.items[i]))
  }

  predicate Built(p: Fields) {
    && "result" in p && BuiltResult(p["result"])
    && "result_summary" in p && p["result_summary"].Dict?
    && "error" in p
  }

  // ---- Text that the last stage drops ----

  /** Characters of a text, as far as truncation keeps them. */
  function Chars(v: Value): nat {
    if !v.Str? then 0 else if |v.s| <= TEXT_MAX then |v.s| else TEXT_MAX
  }

  function ItemChars(item: Value): nat
    requires HasTexts(item)
  {
    TextsAreThere(item);
    Chars(item.fields[TEXTS[0]]) + Chars(item.fields[TEXTS[1]]) + Chars(item.fields[TEXTS[2]])
  }

  function ListChars(items: seq<Value>): nat
    requires forall i :: 0 <= i < |items| ==> HasTexts(items[i])
  {
    if items == [] then 0 else ItemChars(items[0]) + ListChars(items[1..])
  }

  function ResultChars(v: Value): nat
    requires BuiltResult(v)
  {
    if v.Str? then Chars(v) else ListChars(v.items)
  }

  lemma TextsAreThere(item: Value)
    requires HasTexts(item)
    ensures forall i :: 0 <= i < |TEXTS| ==> TEXTS[i] in item.fields && item.fields[TEXTS[i]].Str?
  {
  }

  // ---- The skeleton is short ----

  lemma TextIsLong(v: Value)
    requires v.Str?
    ensures Bytes(Str("")) == 2 && Bytes(v) >= 2 + |v.s| >= 2 + Chars(v)
  {
    TextBytesAtLeast(v.s);
  }

  lemma ClearText(m: Fields, k: string)
    requires k in m && m[k].Str?
    ensures Body(m[k := Str("")]) + Chars(m[k]) <= Body(m)
  {
    BodyWith(m, k, Str(""));
    TextIsLong(m[k]);
  }

  lemma ClearedItemBytes(item: Value)
    requires HasTexts(item)
    ensures Bytes(ClearedItem(item)) + ItemChars(item) <= Bytes(item)
  {
    TextsAreThere(item);
    TextsDiffer();
    var m := item.fields;
    var m1 := m[TEXTS[0] := Str("")];
    var m2 := m1[TEXTS[1] := Str("")];
    ClearText(m, TEXTS[0]);
    ClearText(m1, TEXTS[1]);
    ClearText(m2, TEXTS[2]);
    DictBytes(m);
    DictBytes(m2[TEXTS[2] := Str("")]);
  }

  lemma {:induction false} ClearedListBytes(items: seq<Value>)
    requires forall i :: 0 <= i < |items| ==> HasTexts(items[i])
    ensures ListBytes(Each(ClearedItem, items)) + ListChars(items) <= ListBytes(items)
  {
    if items != [] {
      ClearedItemBytes(items[0]);
      ClearedListBytes(items[1..]);
      assert Each(ClearedItem, items)[1..] == Each(ClearedItem, items[1..]);
    }
  }

  lemma ResultBytes(v: Value)
    requires BuiltResult(v)
    ensures Bytes(SkeletonOf(v)) + ResultChars(v) <= Bytes(v)
  {
    if v.Str? {
      TextIsLong(v);
    } else if v.items != [] {
      ClearedListBytes(v.items);
      assert Each(ClearedItem, v.items) != [];
    } else {
      assert Each(ClearedItem, v.items) == [];
    }
  }

  const FLAG_BYTES: nat := 36

  lemma FlagBytes()
    ensures Entry(FLAG, Bytes(Bool(true))) == FLAG_BYTES
  {
    PlainBytes(FLAG);
  }

  lemma WithFlag(m: Fields)
    ensures Body(m[FLAG := Bool(true)]) <= Body(m) + FLAG_BYTES
  {
    FlagBytes();
    BodyWith(m, FLAG, Bool(true));
  }

  lemma SummaryBytes(m: Fields)
    ensures Bytes(Dict(KeptOf(m)[FLAG := Bool(true)])) <= Bytes(Dict(m)) + FLAG_BYTES
  {
    var kept := KeptOf(m);
    WithFlag(kept);
    BodyOfPart(kept, m);
    var flagged := kept[FLAG := Bool(true)];
    assert FLAG in flagged;
    DictBytes(flagged);
    if m != map[] {
      DictBytes(m);
    } else {
      assert kept == map[];
    }
  }

  const MARK_BYTES: nat := 29

  lemma MarkBytes()
    ensures TextBytes(MARK) == MARK_BYTES
  {
    PlainBytes("...[truncated for callback]");
    TextBytesConcat("\n", "...[truncated for callback]");
    assert MARK == "\n" + "...[truncated for callback]";
    assert "\n"[..0] == "";
  }

  /** Cutting a text drops a character at least. */
  lemma CutBytes(v: Value)
    ensures Bytes(TruncateText(v)) + 1 <= Bytes(v) + MARK_BYTES
  {
    if v.Str? && |v.s| > TEXT_MAX {
      var head, tail := v.s[..TEXT_MAX], v.s[TEXT_MAX..];
      assert v.s == head + tail;
      TextBytesConcat(head, tail);
      TextBytesAtLeast(tail);
      TextBytesConcat(head, MARK);
      MarkBytes();
    }
  }

  /** Two flags and one mark. */
  const SLACK: nat := 2 * FLAG_BYTES + MARK_BYTES - 1

  lemma SkeletonIsUpdate(q: Fields, k: Fields)
    requires Built(q)
    requires k == q["result" := SkeletonOf(q["result"])]
                   ["result_summary" := Dict(KeptOf(q["result_summary"].fields)[FLAG := Bool(true)])]
                   ["error" := TruncateText(q["error"])]
                   [FLAG := Bool(true)]
    ensures Skeleton(q) == k
  {
    assert Skeleton(q).Keys == k.Keys;
    assert forall key :: key in k ==> Skeleton(q)[key] == k[key];
  }

  lemma SetShorter(m: Fields, k: string, v: Value, less: nat, more: nat)
    requires k in m && Bytes(v) + less <= Bytes(m[k]) + more
    ensures Body(m[k := v]) + less <= Body(m) + more
  {
    BodyWith(m, k, v);
  }

  /** The skeleton of a built payload lacks its host texts and is otherwise longer by two flags and a mark at most. */
  lemma SkeletonBytes(q: Fields)
    requires Built(q)
    ensures RequestSize(Skeleton(q)) + ResultChars(q["result"]) <= RequestSize(q) + SLACK
  {
    var m := q["result_summary"].fields;
    var q1 := q["result" := SkeletonOf(q["result"])];
    var q2 := q1["result_summary" := Dict(KeptOf(m)[FLAG := Bool(true)])];
    var q3 := q2["error" := TruncateText(q["error"])];
    var q4 := q3[FLAG := Bool(true)];
    ResultBytes(q["result"]);
    SetShorter(q, "result", SkeletonOf(q["result"]), ResultChars(q["result"]), 0);
    SummaryBytes(m);
    SetShorter(q1, "result_summary", q2["result_summary"], 0, FLAG_BYTES);
    CutBytes(q["error"]);
    SetShorter(q2, "error", q3["error"], 1, MARK_BYTES);
    WithFlag(q3);
    SkeletonIsUpdate(q, q4);
    DictBytes(q);
    DictBytes(q4);
  }

  // ---- Every stage is built, with the same text ----

  lemma TrimmedIsBuilt(p: Fields)
    requires Built(p)
    ensures Built(TrimSummary(p)) && TrimSummary(p)["result"] == p["result"]
  {
  }

  lemma CutItemChars(item: Value)
    requires HasTexts(item)
    ensures HasTexts(TruncatedItem(item)) && ItemChars(TruncatedItem(item)) == ItemChars(item)
  {
    TextsAreThere(item);
    TextsDiffer();
    var cut := TruncatedItem(item).fields;
    assert forall k | k in TEXTS :: k in cut && cut[k] == TruncateText(item.fields[k]);
  }

  lemma {:induction false} CutListChars(items: seq<Value>)
    requires forall i :: 0 <= i < |items| ==> HasTexts(items[i])
    ensures var cut := Each(TruncatedItem, items);
      (forall i :: 0 <= i < |cut| ==> HasTexts(cut[i])) && ListChars(cut) == ListChars(items)
  {
    if items != [] {
      var cut := Each(TruncatedItem, items);
      CutItemChars(items[0]);
      CutListChars(items[1..]);
      assert cut[1..] == Each(TruncatedItem, items[1..]);
      assert forall i :: 1 <= i < |cut| ==> cut[i] == cut[1..][i - 1];
    }
  }

  lemma CutIsBuilt(p: Fields)
    requires Built(p)
    ensures Built(TruncateTexts(p)) && ResultChars(TruncateTexts(p)["result"]) == ResultChars(p["result"])
  {
    if p["result"].List? {
      CutListChars(p["result"].items);
    }
  }

  // ---- When the payload fits ----

  /** For every payload the executor builds: compaction meets the limit if the skeleton of the payload does, and only
      if the skeleton exceeds it by less than the two flags and the mark; and when its texts hold as many characters
      as these take bytes, exactly if the skeleton meets it. */
  lemma BuiltFitsExactlyWhen(p: Fields, max: nat)
    requires Built(p)
    ensures RequestSize(Skeleton(p)) <= max ==> RequestSize(Compacted(p, max, RequestSize)) <= max
    ensures RequestSize(Compacted(p, max, RequestSize)) <= max ==> RequestSize(Skeleton(p)) <= max + SLACK
    ensures ResultChars(p["result"]) >= SLACK ==>
      (RequestSize(Compacted(p, max, RequestSize)) <= max <==> RequestSize(Skeleton(p)) <= max)
  {
    var a := TrimSummary(p);
    LastStageIsSkeleton(p);
    TrimmedIsBuilt(p);
    CutIsBuilt(a);
    SkeletonBytes(p);
    SkeletonBytes(a);
    SkeletonBytes(TruncateTexts(a));
    FitsUpToSlack(p, max, RequestSize, SLACK);
    FitsUpToSlack(p, max, RequestSize, 0);
  }

  // ---- When it cannot ----

  const ENTRY_KEYS: seq<string> :=
    ["host", "status", "raw_status", "exit_code", "stdout", "stderr", "error_message"]

  /** An entry with the fields that both output parsers write. */
  predicate Full(item: Value) {
    item.Dict? && forall k | k in ENTRY_KEYS :: k in item.fields
  }

  predicate AllFull(p: Fields) {
    "result" in p && p["result"].List? && forall i :: 0 <= i < |p["result"].items| ==> Full(p["result"].items[i])
  }

  function HostCount(p: Fields): nat {
    if "result" in p && p["result"].List? then |p["result"].items| else 0
  }

  /** Quoted keys, separators and one byte for each value. */
  function KeysBytes(keys: seq<string>): nat {
    if keys == [] then 0 else |keys[0]| + 7 + KeysBytes(keys[1..])
  }

  lemma {:induction false} KeysTakeBytes(m: Fields, keys: seq<string>)
    requires forall i :: 0 <= i < |keys| ==> keys[i] in m
    requires forall i, j :: 0 <= i < j < |keys| ==> keys[i] != keys[j]
    ensures Body(m) >= KeysBytes(keys)
    decreases |keys|
  {
    if keys != [] {
      BodyWithout(m, keys[0]);
      BytesAtLeast(m[keys[0]]);
      TextBytesAtLeast(keys[0]);
      KeysTakeBytes(m - {keys[0]}, keys[1..]);
    }
  }

  lemma EntryKeysDiffer()
    ensures forall i, j :: 0 <= i < j < |ENTRY_KEYS| ==> ENTRY_KEYS[i] != ENTRY_KEYS[j]
  {
    assert ENTRY_KEYS[1][0] == 's' && ENTRY_KEYS[1][2] == 'a';
    assert ENTRY_KEYS[4][2] == 'd' && ENTRY_KEYS[4][3] == 'o' && ENTRY_KEYS[5][2] == 'd' && ENTRY_KEYS[5][3] == 'e';
  }

  lemma EntryKeysBytes()
    ensures KeysBytes(ENTRY_KEYS) == 103
  {
    KeysStep(ENTRY_KEYS, 0);
    KeysStep(ENTRY_KEYS, 1);
    KeysStep(ENTRY_KEYS, 2);
    KeysStep(ENTRY_KEYS, 3);
    KeysStep(ENTRY_KEYS, 4);
    KeysStep(ENTRY_KEYS, 5);
    KeysStep(ENTRY_KEYS, 6);
    assert ENTRY_KEYS[0..] == ENTRY_KEYS && ENTRY_KEYS[7..] == [];
  }

  lemma KeysStep(keys: seq<string>, i: nat)
    requires i < |keys|
    ensures KeysBytes(keys[i..]) == |keys[i]| + 7 + KeysBytes(keys[i + 1..])
  {
    assert keys[i..][1..] == keys[i + 1..];
  }

  const ENTRY_BYTES: nat := 105

  lemma FullBytes(item: Value)
    requires Full(item)
    ensures Bytes(item) + 2 >= ENTRY_BYTES
  {
    EntryKeysDiffer();
    EntryKeysBytes();
    KeysTakeBytes(item.fields, ENTRY_KEYS);
    assert ENTRY_KEYS[0] in item.fields;
    DictBytes(item.fields);
  }

  lemma {:induction false} FullListBytes(items: seq<Value>)
    requires forall i :: 0 <= i < |items| ==> Full(items[i])
    ensures ListBytes(items) >= ENTRY_BYTES * |items|
  {
    if items != [] {
      FullBytes(items[0]);
      FullListBytes(items[1..]);
    }
  }

  lemma FullPayloadBytes(p: Fields)
    requires AllFull(p)
    ensures RequestSize(p) > ENTRY_BYTES * HostCount(p)
  {
    FullListBytes(p["result"].items);
    BodyWithout(p, "result");
    DictBytes(p);
  }

  lemma FullStaysFull(item: Value)
    requires Full(item)
    ensures Full(TruncatedItem(item)) && Full(ClearedItem(item))
  {
    assert forall k :: k in item.fields ==> k in TruncatedItem(item).fields && k in ClearedItem(item).fields;
  }

  predicate Crowded(p: Fields, n: nat) {
    AllFull(p) && HostCount(p) == n
  }

  lemma StagesStayCrowded(p: Fields, n: nat)
    requires Crowded(p, n)
    ensures Crowded(TrimSummary(p), n) && Crowded(TruncateTexts(p), n) && Crowded(Skeleton(p), n)
  {
    var items := p["result"].items;
    forall i | 0 <= i < |items| ensures Full(TruncatedItem(items[i])) && Full(ClearedItem(items[i])) {
      FullStaysFull(items[i]);
    }
  }

  lemma CrowdedIsLarge(p: Fields, n: nat, max: nat)
    requires Crowded(p, n) && ENTRY_BYTES * n >= max
    ensures RequestSize(p) > max
  {
    FullPayloadBytes(p);
  }

  lemma NoStageFits(p: Fields, max: nat, size: Fields -> nat)
    requires size(p) > max && size(TrimSummary(p)) > max && size(TruncateTexts(TrimSummary(p))) > max
    requires size(Skeleton(p)) > max
    ensures size(Compacted(p, max, size)) > max
  {
    LastStageIsSkeleton(p);
  }

  /** So the limit is not always met: every host's entry survives all stages, and each takes 105 bytes at least. */
  lemma HostListNeverFits(p: Fields, n: nat, max: nat)
    requires Crowded(p, n) && ENTRY_BYTES * n >= max
    ensures RequestSize(Compacted(p, max, RequestSize)) > max
  {
    var a := TrimSummary(p);
    StagesStayCrowded(p, n);
    StagesStayCrowded(a, n);
    CrowdedIsLarge(p, n, max);
    CrowdedIsLarge(a, n, max);
    CrowdedIsLarge(TruncateTexts(a), n, max);
    CrowdedIsLarge(Skeleton(p), n, max);
    NoStageFits(p, max, RequestSize);
  }

  // ---- A payload that does not fit ----

  function HostEntry(host: string): Value {
    Dict(map["host" := Str(host), "status" := Str("success"), "raw_status" := Str("SUCCESS"), "stdout" := Str(""),
             "stderr" := Str(""), "exit_code" := Num(0), "error_message" := Str("")])
  }

  function SummaryOf(hosts: nat): Value {
    Dict(map["stdout_combined" := Str(""), "host_count" := Num(hosts)])
  }

  /** What is reported when a command succeeded silently on every host. */
  function SilentSuccess(hosts: seq<string>): Fields {
    map["status" := Str("success"), "success" := Bool(true), "error" := Str(""),
        "result_summary" := SummaryOf(|hosts|),
        "result" := List(seq(|hosts|, i requires 0 <= i < |hosts| => HostEntry(hosts[i])))]
  }

  lemma EntryIsFull(host: string)
    ensures Full(HostEntry(host)) && HasTexts(HostEntry(host))
  {
  }

  lemma SilentSuccessIsBuilt(hosts: seq<string>)
    ensures Built(SilentSuccess(hosts)) && Crowded(SilentSuccess(hosts), |hosts|)
  {
    forall i | 0 <= i < |hosts| ensures Full(HostEntry(hosts[i])) && HasTexts(HostEntry(hosts[i])) {
      EntryIsFull(hosts[i]);
    }
  }

  /** The limit under the broker's default message size. */
  const DEFAULT_MAX_BYTES: nat := 1024 * 1024 - 4 * 1024

  /** Under the default limit, ten thousand hosts that print nothing are already too many. */
  lemma TooManyHosts(hosts: seq<string>)
    requires |hosts| >= 10_000
    ensures Built(SilentSuccess(hosts))
    ensures RequestSize(Compacted(SilentSuccess(hosts), DEFAULT_MAX_BYTES, RequestSize)) > DEFAULT_MAX_BYTES
  {
    SilentSuccessIsBuilt(hosts);
    HostListNeverFits(SilentSuccess(hosts), |hosts|, DEFAULT_MAX_BYTES);
  }

  // ---- Why the texts count ----

  const NO_HOSTS: Fields := SilentSuccess([])

  lemma ShortSummaryBytes(m: Fields)
    requires m == map["stdout_combined" := Str(""), "host_count" := Num(0)]
    ensures Bytes(Dict(KeptOf(m)[FLAG := Bool(true)])) > Bytes(Dict(m))
  {
    var kept := KeptOf(m);
    assert kept == m - {"stdout_combined"};
    BodyWithout(m, "stdout_combined");
    PlainBytes("stdout_combined");
    FlagBytes();
    BodyWith(kept, FLAG, Bool(true));
    assert FLAG !in kept && FLAG in kept[FLAG := Bool(true)];
    DictBytes(kept[FLAG := Bool(true)]);
    DictBytes(m);
  }

  lemma TextlessGrows(q: Fields, summary: Value)
    requires Built(q) && FLAG !in q && q["result"] == List([]) && q["error"] == Str("")
    requires summary == Dict(KeptOf(q["result_summary"].fields)[FLAG := Bool(true)])
    requires Bytes(summary) > Bytes(q["result_summary"])
    ensures RequestSize(Skeleton(q)) > RequestSize(q)
  {
    assert Each(ClearedItem, []) == [];
    var q1 := q["result" := SkeletonOf(q["result"])];
    assert q1 == q;
    var q2 := q1["result_summary" := summary];
    var q3 := q2["error" := TruncateText(q["error"])];
    assert q3 == q2;
    BodyWith(q1, "result_summary", summary);
    BodyWith(q3, FLAG, Bool(true));
    SkeletonIsUpdate(q, q3[FLAG := Bool(true)]);
    DictBytes(q);
    DictBytes(q3[FLAG := Bool(true)]);
  }

  /** With no text to drop, the skeleton is longer than the payload: at just its size the payload fits, and its
      skeleton does not. */
  lemma SlackIsNeeded()
    ensures Built(NO_HOSTS) && ResultChars(NO_HOSTS["result"]) == 0
    ensures var max := RequestSize(NO_HOSTS);
      RequestSize(Compacted(NO_HOSTS, max, RequestSize)) <= max && RequestSize(Skeleton(NO_HOSTS)) > max
  {
    SilentSuccessIsBuilt([]);
    var m := NO_HOSTS["result_summary"].fields;
    ShortSummaryBytes(m);
    TextlessGrows(NO_HOSTS, Dict(KeptOf(m)[FLAG := Bool(true)]));
  }
}
