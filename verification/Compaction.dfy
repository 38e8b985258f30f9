/**
 * Shrinking a callback payload to what one message may carry. The serialized size is a parameter here, with nothing
 * assumed about it; CompactionSize is about the size the code measures.
 */
module Compaction {
  import opened Json

  const TEXT_MAX: nat := 8 * 1024
  const MARK := "\n...[truncated for callback]"
  const FLAG := "callback_payload_truncated"

  /** Fields of a host's result that hold text. */
  const TEXTS: seq<string> := ["stdout", "stderr", "error_message"]

  /** Fields of the summary that are always kept. */
  const KEPT: set<string> :=
    {"host_count", "output_truncated", "output_bytes_total", "output_bytes_retained", "output_max_bytes", FLAG}

  /** Top-level fields compaction may touch. */
  const TOUCHED: set<string> := {"result", "result_summary", "error", FLAG}

  function Get(m: Fields, key: string): Value {
    if key in m then m[key] else Str("")
  }

  function TruncateText(v: Value): Value {
    if v.Str? && |v.s| > TEXT_MAX then Str(v.s[..TEXT_MAX] + MARK) else v
  }

  // ---- The stages ----

  /** The first stage: the summary without the combined output, marked. */
  function TrimSummary(p: Fields): Fields {
    if "result_summary" in p && p["result_summary"].Dict? then
      var summary := p["result_summary"].fields;
      p["result_summary" := Dict((summary - {"stdout_combined"})[FLAG := Bool(true)])]
    else p
  }

  function TruncatedItem(item: Value): Value {
    if item.Dict? then
      Dict(item.fields[TEXTS[0] := TruncateText(Get(item.fields, TEXTS[0]))]
                      [TEXTS[1] := TruncateText(Get(item.fields, TEXTS[1]))]
                      [TEXTS[2] := TruncateText(Get(item.fields, TEXTS[2]))])
    else item
  }

  function ClearedItem(item: Value): Value {
    if item.Dict? then Dict(item.fields[TEXTS[0] := Str("")][TEXTS[1] := Str("")][TEXTS[2] := Str("")]) else item
  }

  function Each(f: Value -> Value, items: seq<Value>): seq<Value> {
    seq(|items|, i requires 0 <= i < |items| => f(items[i]))
  }

  function WithResult(p: Fields, f: Value -> Value, text: string -> Value): Fields {
    if "result" !in p then p
    else
      match p["result"]
      case List(items) => p["result" := List(Each(f, items))]
      case Str(s) => p["result" := text(s)]
      case _ => p
  }

  /** The second stage: texts cut to a bounded length. */
  function TruncateTexts(p: Fields): Fields {
    WithResult(p, TruncatedItem, s => TruncateText(Str(s)))["error" := TruncateText(Get(p, "error"))]
  }

  function KeptOf(summary: Fields): Fields {
    map k | k in summary && k in KEPT :: summary[k]
  }

  function ShrinkSummary(p: Fields): Fields {
    if "result_summary" in p && p["result_summary"].Dict?
    then p["result_summary" := Dict(KeptOf(p["result_summary"].fields))]
    else p
  }

  /** The last stage: host texts emptied, the summary cut down to its counters. */
  function DropTexts(p: Fields): Fields {
    ShrinkSummary(WithResult(p, ClearedItem, s => Str("")))[FLAG := Bool(true)]
  }

  /** The first stage that fits, else the last one. */
  function Compacted(p: Fields, max: nat, size: Fields -> nat): Fields {
    if size(p) <= max then p
    else
      var a := TrimSummary(p);
      if size(a) <= max then a
      else
        var b := TruncateTexts(a);
        if size(b) <= max then b else DropTexts(b)
  }

  // ---- The code ----

  method EditItems(items: seq<Value>, clear: bool) returns (edited: seq<Value>)
    ensures edited == Each(if clear then ClearedItem else TruncatedItem, items)
  {
    edited := items;
    for i := 0 to |items|
      invariant |edited| == |items|
      invariant forall j :: i <= j < |items| ==> edited[j] == items[j]
      invariant forall j :: 0 <= j < i ==> edited[j] == if clear then ClearedItem(items[j]) else TruncatedItem(items[j])
    {
      var item := edited[i];
      if item.Dict? {
        var fields := item.fields;
        for t := 0 to |TEXTS|
          invariant t == 0 ==> fields == item.fields
          invariant t == 1 ==> fields == item.fields[TEXTS[0] := NewText(item.fields, TEXTS[0], clear)]
          invariant t == 2 ==> fields == item.fields[TEXTS[0] := NewText(item.fields, TEXTS[0], clear)]
                                                    [TEXTS[1] := NewText(item.fields, TEXTS[1], clear)]
          invariant t == 3 ==> fields == item.fields[TEXTS[0] := NewText(item.fields, TEXTS[0], clear)]
                                                    [TEXTS[1] := NewText(item.fields, TEXTS[1], clear)]
                                                    [TEXTS[2] := NewText(item.fields, TEXTS[2], clear)]
        {
          TextsDiffer();
          fields := fields[TEXTS[t] := NewText(fields, TEXTS[t], clear)];
        }
        edited := edited[i := Dict(fields)];
      }
    }
  }

  function NewText(fields: Fields, key: string, clear: bool): Value {
    if clear then Str("") else TruncateText(Get(fields, key))
  }

  lemma TextsDiffer()
    ensures |TEXTS| == 3 && TEXTS[0] != TEXTS[1] && TEXTS[0] != TEXTS[2] && TEXTS[1] != TEXTS[2]
  {
    assert TEXTS[0][3] == 'o' && TEXTS[1][3] == 'e' && |TEXTS[2]| == 13;
  }

  method EditResult(p: Fields, clear: bool) returns (edited: Fields)
    ensures !clear ==> edited == WithResult(p, TruncatedItem, s => TruncateText(Str(s)))
    ensures clear ==> edited == WithResult(p, ClearedItem, s => Str(""))
  {
    edited := p;
    if "result" in p {
      match p["result"]
      case List(items) =>
        var items' := EditItems(items, clear);
        edited := edited["result" := List(items')];
      case Str(s) =>
        edited := edited["result" := if clear then Str("") else TruncateText(Str(s))];
      case _ =>
    }
  }

  /** The payload is edited stage by stage; the caller's own dictionary is not touched. */
  method CompactCallbackPayload(payload: Fields, maxBytes: nat, size: Fields -> nat) returns (callback: Fields)
    ensures callback == Compacted(payload, maxBytes, size)
  {
    callback := payload;
    if size(callback) <= maxBytes {
      return;
    }
    if "result_summary" in callback && callback["result_summary"].Dict? {
      var summary := callback["result_summary"].fields;
      summary := summary - {"stdout_combined"};
      summary := summary[FLAG := Bool(true)];
      callback := callback["result_summary" := Dict(summary)];
    }
    if size(callback) <= maxBytes {
      return;
    }
    var error := TruncateText(Get(callback, "error"));
    callback := EditResult(callback, false);
    callback := callback["error" := error];
    if size(callback) <= maxBytes {
      return;
    }
    callback := EditResult(callback, true);
    if "result_summary" in callback && callback["result_summary"].Dict? {
      callback := callback["result_summary" := Dict(KeptOf(callback["result_summary"].fields))];
    }
    callback := callback[FLAG := Bool(true)];
  }

  // ---- What each stage does, field by field ----

  /** The first stage takes the combined output out of the summary and marks it; nothing else changes. */
  lemma TrimStates(p: Fields, key: string, field: string)
    ensures (key in TrimSummary(p) <==> key in p)
    ensures key in p && !(key == "result_summary" && p[key].Dict?) ==> TrimSummary(p)[key] == p[key]
    ensures "result_summary" in p && p["result_summary"].Dict? ==>
      && TrimSummary(p)["result_summary"].Dict?
      && var before, after := p["result_summary"].fields, TrimSummary(p)["result_summary"].fields;
         if field == "callback_payload_truncated" then field in after && after[field] == Bool(true)
         else if field == "stdout_combined" then field !in after
         else (field in after <==> field in before) && (field in before ==> after[field] == before[field])
  {
  }

  /** Longer than 8192 characters: the first 8192 and the notice. */
  predicate CutTo(before: Value, after: Value) {
    if before.Str? && |before.s| > 8192
    then after == Str(before.s[..8192] + "\n...[truncated for callback]")
    else after == before
  }

  lemma TextIsCut(v: Value)
    ensures CutTo(v, TruncateText(v))
  {
  }

  /** The second stage cuts the three texts of every host entry, a missing one becoming empty, and leaves its other
      fields. */
  lemma TruncatedItemStates(m: Fields, field: string)
    ensures TruncatedItem(Dict(m)).Dict?
    ensures var after := TruncatedItem(Dict(m)).fields;
      if field in ["stdout", "stderr", "error_message"]
      then field in after && CutTo(if field in m then m[field] else Str(""), after[field])
      else (field in after <==> field in m) && (field in m ==> after[field] == m[field])
  {
    TextsDiffer();
  }

  /** It cuts a textual result and the error likewise, and applies to every entry of a list. */
  lemma TruncateStates(p: Fields, key: string, i: nat)
    ensures
      "error" in TruncateTexts(p) && CutTo(if "error" in p then p["error"] else Str(""), TruncateTexts(p)["error"])
    ensures key !in ["error", "result"] ==>
      (key in TruncateTexts(p) <==> key in p) && (key in p ==> TruncateTexts(p)[key] == p[key])
    ensures "result" in p <==> "result" in TruncateTexts(p)
    ensures "result" in p && p["result"].Str? ==> CutTo(p["result"], TruncateTexts(p)["result"])
    ensures "result" in p && p["result"].List? && i < |p["result"].items| ==>
      && TruncateTexts(p)["result"].List? && |TruncateTexts(p)["result"].items| == |p["result"].items|
      && TruncateTexts(p)["result"].items[i] == TruncatedItem(p["result"].items[i])
  {
    TextIsCut(Get(p, "error"));
    if "result" in p && p["result"].Str? {
      TextIsCut(p["result"]);
    }
  }

  /** The last stage, field by field: marked; of the summary exactly six fields; each host's texts empty and its other
      fields kept; a textual result empty. */
  lemma DropStates(p: Fields, key: string, i: nat)
    ensures "callback_payload_truncated" in DropTexts(p)
    ensures DropTexts(p)["callback_payload_truncated"] == Bool(true)
    ensures key in p && key !in ["callback_payload_truncated", "result", "result_summary"] ==>
      key in DropTexts(p) && DropTexts(p)[key] == p[key]
    ensures "result_summary" in p && p["result_summary"].Dict? ==>
      && "result_summary" in DropTexts(p) && DropTexts(p)["result_summary"].Dict?
      && var before, after := p["result_summary"].fields, DropTexts(p)["result_summary"].fields;
         var kept := ["host_count", "output_truncated", "output_bytes_total", "output_bytes_retained",
                      "output_max_bytes", "callback_payload_truncated"];
         && (key in after <==> key in before && key in kept)
         && (key in after ==> after[key] == before[key])
    ensures "result" in p && p["result"].Str? ==> "result" in DropTexts(p) && DropTexts(p)["result"] == Str("")
    ensures "result" in p && p["result"].List? && i < |p["result"].items| ==>
      && "result" in DropTexts(p) && DropTexts(p)["result"].List?
      && |DropTexts(p)["result"].items| == |p["result"].items|
      && var before, after := p["result"].items[i], DropTexts(p)["result"].items[i];
         if before.Dict? then ClearedTo(before.fields, after, key) else after == before
  {
    assert FLAG != "result" && FLAG != "result_summary" by { assert |FLAG| == 26; }
    if "result" in p && p["result"].List? && i < |p["result"].items| {
      ClearedListStates(p, i);
      ClearedItemStates(p["result"].items[i], key);
    }
  }

  lemma ClearedListStates(p: Fields, i: nat)
    requires "result" in p && p["result"].List? && i < |p["result"].items|
    ensures "result" in DropTexts(p) && DropTexts(p)["result"].List?
    ensures |DropTexts(p)["result"].items| == |p["result"].items|
    ensures DropTexts(p)["result"].items[i] == ClearedItem(p["result"].items[i])
  {
    assert FLAG != "result" by { assert |FLAG| == 26; }
    var q := WithResult(p, ClearedItem, s => Str(""));
    assert q["result"] == List(Each(ClearedItem, p["result"].items));
    assert DropTexts(p)["result"] == q["result"];
  }

  lemma ClearedItemStates(item: Value, key: string)
    ensures if item.Dict? then ClearedTo(item.fields, ClearedItem(item), key) else ClearedItem(item) == item
  {
    TextsDiffer();
  }

  /** Of field `key` of a host's entry: its text emptied, or left alone. */
  predicate ClearedTo(before: Fields, after: Value, key: string) {
    && after.Dict?
    && if key in ["stdout", "stderr", "error_message"] then key in after.fields && after.fields[key] == Str("")
       else (key in after.fields <==> key in before) && (key in before ==> after.fields[key] == before[key])
  }

  /** Nothing is cut that need not be: each stage is taken only when the one before is too long. */
  lemma CutsNoMoreThanNeeded(p: Fields, max: nat, size: Fields -> nat)
    ensures var out, a := Compacted(p, max, size), TrimSummary(p);
      && (size(p) <= max ==> out == p)
      && (size(p) > max && size(a) <= max ==> out == a)
      && (size(p) > max && size(a) > max && size(TruncateTexts(a)) <= max ==> out == TruncateTexts(a))
  {
  }

  // ---- What is kept ----

  /** A host's entry keeps every field but its texts; each text is whole, cut, or emptied. */
  ghost predicate SameHost(before: Value, after: Value) {
    if !before.Dict? then after == before
    else
      && after.Dict?
      && (forall k | k !in TEXTS :: k in after.fields <==> k in before.fields)
      && (forall k | k !in TEXTS && k in before.fields :: after.fields[k] == before.fields[k])
      && (forall k | k in TEXTS && k in after.fields ::
            after.fields[k] in {Get(before.fields, k), TruncateText(Get(before.fields, k)), Str("")})
  }

  ghost predicate SameHosts(before: Fields, after: Fields) {
    "result" in before && before["result"].List? ==>
      && "result" in after && after["result"].List?
      && |after["result"].items| == |before["result"].items|
      && forall j :: 0 <= j < |before["result"].items| ==> SameHost(before["result"].items[j], after["result"].items[j])
  }

  lemma TruncatedIsSame(item: Value)
    ensures SameHost(item, TruncatedItem(item))
  {
    TextsDiffer();
  }

  lemma ClearedIsSame(item: Value)
    ensures SameHost(item, ClearedItem(TruncatedItem(item)))
  {
    TextsDiffer();
  }

  lemma TextTruncatesOnce(v: Value)
    ensures TruncateText(TruncateText(v)) == TruncateText(v)
  {
    if v.Str? && |v.s| > TEXT_MAX {
      assert (v.s[..TEXT_MAX] + MARK)[..TEXT_MAX] == v.s[..TEXT_MAX];
    }
  }

  lemma StagesKeepHosts(p: Fields)
    ensures SameHosts(p, p) && SameHosts(p, TrimSummary(p))
    ensures SameHosts(p, TruncateTexts(TrimSummary(p)))
    ensures SameHosts(p, DropTexts(TruncateTexts(TrimSummary(p))))
  {
    if "result" in p && p["result"].List? {
      var items := p["result"].items;
      assert TrimSummary(p)["result"].items == items;
      forall j | 0 <= j < |items| ensures
        SameHost(items[j], TruncatedItem(items[j])) && SameHost(items[j], ClearedItem(TruncatedItem(items[j])))
      {
        TruncatedIsSame(items[j]);
        ClearedIsSame(items[j]);
      }
    }
  }

  predicate SameField(before: Fields, after: Fields, key: string) {
    (key in after <==> key in before) && (key in before ==> after[key] == before[key])
  }

  lemma TrimKeepsField(p: Fields, key: string)
    requires key !in TOUCHED
    ensures SameField(p, TrimSummary(p), key)
  {
  }

  lemma TruncateKeepsField(p: Fields, key: string)
    requires key !in TOUCHED
    ensures SameField(p, TruncateTexts(p), key)
  {
  }

  lemma DropKeepsField(p: Fields, key: string)
    requires key !in TOUCHED
    ensures SameField(p, DropTexts(p), key)
  {
  }

  /** Every field outside `TOUCHED` (task id, status, `success`, times, …) is as in the input, and the results come
      back in order, one per host, each with every field of that host but its texts. */
  lemma OutcomeKept(p: Fields, max: nat, size: Fields -> nat, key: string)
    ensures SameHosts(p, Compacted(p, max, size))
    ensures key !in TOUCHED ==> SameField(p, Compacted(p, max, size), key)
  {
    StagesKeepHosts(p);
    if key !in TOUCHED {
      var a := TrimSummary(p);
      TrimKeepsField(p, key);
      TruncateKeepsField(a, key);
      DropKeepsField(TruncateTexts(a), key);
    }
  }

  // ---- What is guaranteed about the size ----

  predicate NoTexts(item: Value) {
    item.Dict? ==> forall k | k in TEXTS :: Get(item.fields, k) == Str("")
  }

  predicate Bare(p: Fields) {
    && ("result_summary" in p && p["result_summary"].Dict? ==> "stdout_combined" !in p["result_summary"].fields)
    && ("result" in p && p["result"].Str? ==> p["result"].s == "")
    && ("result" in p && p["result"].List? ==>
          forall j :: 0 <= j < |p["result"].items| ==> NoTexts(p["result"].items[j]))
  }

  lemma ClearedIsEmpty(item: Value)
    ensures NoTexts(ClearedItem(item))
  {
    TextsDiffer();
  }

  lemma LastStageIsBare(p: Fields)
    ensures Bare(DropTexts(p))
  {
    if "result" in p && p["result"].List? {
      forall item ensures NoTexts(ClearedItem(item)) {
        ClearedIsEmpty(item);
      }
    }
  }

  /** The result fits, or there is nothing left to drop. */
  lemma FitsOrBare(p: Fields, max: nat, size: Fields -> nat)
    ensures size(Compacted(p, max, size)) <= max || Bare(Compacted(p, max, size))
  {
    LastStageIsBare(TruncateTexts(TrimSummary(p)));
  }

  // ---- When it fits ----

  function SkeletonOf(result: Value): Value {
    match result
    case List(items) => List(Each(ClearedItem, items))
    case Str(_) => Str("")
    case other => other
  }

  /** What no stage removes, read off the input: every field, with host texts emptied, a bounded error and the summary's
      counters. */
  function Skeleton(p: Fields): Fields {
    map k | k in p.Keys + {"error", FLAG} ::
      if k == FLAG then Bool(true)
      else if k == "error" then TruncateText(Get(p, k))
      else if k == "result" then SkeletonOf(p[k])
      else if k == "result_summary" && p[k].Dict? then Dict(KeptOf(p[k].fields)[FLAG := Bool(true)])
      else p[k]
  }

  lemma SkeletonOfTrimmed(p: Fields)
    ensures Skeleton(TrimSummary(p)) == Skeleton(p)
  {
    if "result_summary" in p && p["result_summary"].Dict? {
      var m := p["result_summary"].fields;
      var t := (m - {"stdout_combined"})[FLAG := Bool(true)];
      assert KeptOf(t)[FLAG := Bool(true)] == KeptOf(m)[FLAG := Bool(true)];
    }
  }

  lemma ClearedAfterCut(item: Value)
    ensures ClearedItem(TruncatedItem(item)) == ClearedItem(item)
  {
    if item.Dict? {
      assert ClearedItem(TruncatedItem(item)).fields == ClearedItem(item).fields;
    }
  }

  lemma SkeletonOfCutResult(v: Value, cut: Value)
    requires cut == match v
      case List(items) => List(Each(TruncatedItem, items))
      case Str(s) => TruncateText(Str(s))
      case other => other
    ensures SkeletonOf(cut) == SkeletonOf(v)
  {
    if v.List? {
      forall j | 0 <= j < |v.items| ensures ClearedItem(TruncatedItem(v.items[j])) == ClearedItem(v.items[j]) {
        ClearedAfterCut(v.items[j]);
      }
      assert Each(ClearedItem, Each(TruncatedItem, v.items)) == Each(ClearedItem, v.items);
    }
  }

  lemma SkeletonOfTruncated(p: Fields)
    ensures Skeleton(TruncateTexts(p)) == Skeleton(p)
  {
    var q := TruncateTexts(p);
    TextTruncatesOnce(Get(p, "error"));
    if "result" in p {
      SkeletonOfCutResult(p["result"], q["result"]);
    }
    assert q.Keys == p.Keys + {"error"};
  }

  /** The summary, if it is a dictionary, is marked; the error is there and bounded. */
  predicate Prepared(q: Fields) {
    && "error" in q && TruncateText(q["error"]) == q["error"]
    && ("result_summary" in q && q["result_summary"].Dict? ==>
          FLAG in q["result_summary"].fields && q["result_summary"].fields[FLAG] == Bool(true))
  }

  lemma StagesPrepare(p: Fields)
    ensures Prepared(TruncateTexts(TrimSummary(p)))
  {
    TextTruncatesOnce(Get(TrimSummary(p), "error"));
  }

  lemma DroppedSummary(q: Fields)
    requires Prepared(q) && "result_summary" in q
    ensures DropTexts(q)["result_summary"] == Skeleton(q)["result_summary"]
  {
    if q["result_summary"].Dict? {
      var m := q["result_summary"].fields;
      assert KeptOf(m)[FLAG := Bool(true)] == KeptOf(m);
    }
  }

  lemma DroppedValue(q: Fields, key: string)
    requires Prepared(q) && key in q
    ensures DropTexts(q)[key] == Skeleton(q)[key]
  {
    if key == "result_summary" {
      DroppedSummary(q);
    }
  }

  lemma DroppedIsSkeleton(q: Fields)
    requires Prepared(q)
    ensures DropTexts(q) == Skeleton(q)
  {
    forall key | key in q ensures DropTexts(q)[key] == Skeleton(q)[key] {
      DroppedValue(q, key);
    }
    assert DropTexts(q).Keys == q.Keys + {FLAG} == Skeleton(q).Keys;
  }

  /** The last stage leaves exactly the skeleton of the input, which every stage has in common. */
  lemma LastStageIsSkeleton(p: Fields)
    ensures DropTexts(TruncateTexts(TrimSummary(p))) == Skeleton(p)
    ensures Skeleton(TruncateTexts(TrimSummary(p))) == Skeleton(TrimSummary(p)) == Skeleton(p)
  {
    SkeletonOfTrimmed(p);
    SkeletonOfTruncated(TrimSummary(p));
    StagesPrepare(p);
    DroppedIsSkeleton(TruncateTexts(TrimSummary(p)));
  }

  /** The skeleton of this payload is longer than none of its stages by more than `slack`. */
  predicate CutsDown(p: Fields, size: Fields -> nat, slack: nat) {
    && size(Skeleton(p)) <= size(p) + slack
    && size(Skeleton(p)) <= size(TrimSummary(p)) + slack
    && size(Skeleton(p)) <= size(TruncateTexts(TrimSummary(p))) + slack
  }

  /** The condition on the input: the result fits if the skeleton does, and only if the skeleton fits up to the slack.
      */
  lemma FitsUpToSlack(p: Fields, max: nat, size: Fields -> nat, slack: nat)
    ensures size(Skeleton(p)) <= max ==> size(Compacted(p, max, size)) <= max
    ensures CutsDown(p, size, slack) && size(Compacted(p, max, size)) <= max ==> size(Skeleton(p)) <= max + slack
  {
    LastStageIsSkeleton(p);
  }

  // ---- Compacting again ----

  lemma KeptStays(m: Fields)
    ensures KeptOf(KeptOf(m)[FLAG := Bool(true)]) == KeptOf(m)[FLAG := Bool(true)]
    ensures (KeptOf(m)[FLAG := Bool(true)] - {"stdout_combined"})[FLAG := Bool(true)] == KeptOf(m)[FLAG := Bool(true)]
  {
  }

  lemma TrimmedSkeleton(k: Fields, m: Fields)
    requires "result_summary" in k && k["result_summary"].Dict? ==>
      k["result_summary"] == Dict(KeptOf(m)[FLAG := Bool(true)])
    ensures TrimSummary(k) == k
  {
    KeptStays(m);
  }

  lemma ClearedStays(item: Value)
    ensures TruncatedItem(ClearedItem(item)) == ClearedItem(item)
    ensures ClearedItem(ClearedItem(item)) == ClearedItem(item)
  {
    TextsDiffer();
    if item.Dict? {
      var m := ClearedItem(item).fields;
      assert m[TEXTS[0]] == Str("") && m[TEXTS[1]] == Str("") && m[TEXTS[2]] == Str("");
      assert ClearedItem(ClearedItem(item)).fields == m;
      assert TruncatedItem(ClearedItem(item)).fields == m;
    }
  }

  lemma ClearedItemsStay(items: seq<Value>)
    ensures Each(TruncatedItem, Each(ClearedItem, items)) == Each(ClearedItem, items)
    ensures Each(ClearedItem, Each(ClearedItem, items)) == Each(ClearedItem, items)
  {
    forall j | 0 <= j < |items| ensures TruncatedItem(ClearedItem(items[j])) == ClearedItem(items[j])
      && ClearedItem(ClearedItem(items[j])) == ClearedItem(items[j])
    {
      ClearedStays(items[j]);
    }
  }

  /** A payload whose result is a skeleton already and whose error is bounded. */
  predicate Cut(k: Fields, v: Value) {
    && ("result" in k ==> k["result"] == SkeletonOf(v))
    && "error" in k && TruncateText(k["error"]) == k["error"]
  }

  lemma CutStays(k: Fields, v: Value)
    requires Cut(k, v)
    ensures TruncateTexts(k) == k
  {
    if v.List? {
      ClearedItemsStay(v.items);
    }
    assert "result" in k ==> WithResult(k, TruncatedItem, s => TruncateText(Str(s)))["result"] == k["result"];
  }

  lemma ResultSkeletonStays(v: Value)
    ensures SkeletonOf(SkeletonOf(v)) == SkeletonOf(v)
  {
    if v.List? {
      ClearedItemsStay(v.items);
    }
  }

  lemma SkeletonTwice(p: Fields, k: Fields, key: string)
    requires k == Skeleton(p) && key in k
    ensures Skeleton(k)[key] == k[key]
  {
    TextTruncatesOnce(Get(p, "error"));
    if key == "result" {
      ResultSkeletonStays(p[key]);
    } else if key == "result_summary" && p[key].Dict? {
      KeptStays(p[key].fields);
    }
  }

  /** The skeleton is its own skeleton, and the earlier stages leave it alone. */
  lemma SkeletonStays(p: Fields, k: Fields)
    requires k == Skeleton(p)
    ensures TrimSummary(k) == k && TruncateTexts(k) == k && Skeleton(k) == k
  {
    TextTruncatesOnce(Get(p, "error"));
    CutStays(k, if "result" in p then p["result"] else Null);
    TrimmedSkeleton(k, if "result_summary" in p && p["result_summary"].Dict? then p["result_summary"].fields
      else map[]);
    forall key | key in k ensures Skeleton(k)[key] == k[key] {
      SkeletonTwice(p, k, key);
    }
    assert Skeleton(k).Keys == k.Keys;
  }

  /** Compacting a compacted payload changes nothing, whether or not it came to fit. */
  lemma CompactionIsIdempotent(p: Fields, max: nat, size: Fields -> nat)
    ensures Compacted(Compacted(p, max, size), max, size) == Compacted(p, max, size)
  {
    LastStageIsSkeleton(p);
    SkeletonStays(p, Skeleton(p));
    LastStageIsSkeleton(Skeleton(p));
  }
}
