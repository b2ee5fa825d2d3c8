/** `Ai::Chat::CleanReplyText`: removes an internal metadata JSON object that a
    model appended to the visible reply, either inside a trailing ```json
    fence or as a bare trailing object. JSON parsing is a parameter `parse`
    (None for text that does not parse). */
module CleanReplyText {
  import opened Wrappers
  import opened Text
  import opened Values

  const SignalKeys: seq<string> := ["suggested_title", "inferred_intent"]
  const ControlTriplet: seq<string> := ["should_generate_artifact", "needs_sources", "suggest_web_search"]
  const MaxAppendedLength: nat := 1500

  // ---------------------------------------------------------------- parsing

  /** `gsub(/[“”]/, "\"").gsub(/[‘’]/, "'")`. */
  function NormalizeQuotes(s: string): string {
    if s == [] then [] else [QuoteChar(s[0])] + NormalizeQuotes(s[1..])
  }

  /** Curly quotes become straight ones and nothing else changes. */
  lemma {:induction false} NormalizeQuotesSpec(s: string)
    ensures |NormalizeQuotes(s)| == |s|
    ensures forall i :: 0 <= i < |s| ==> NormalizeQuotes(s)[i] == QuoteChar(s[i])
    ensures forall i :: 0 <= i < |s| ==> (NormalizeQuotes(s)[i] == s[i] <==> s[i] !in "“”‘’")
  {
    if s != [] {
      NormalizeQuotesSpec(s[1..]);
      forall i | 0 < i < |s|
        ensures NormalizeQuotes(s)[i] == QuoteChar(s[i])
      {
        assert NormalizeQuotes(s)[i] == NormalizeQuotes(s[1..])[i - 1];
      }
    }
  }

  function QuoteChar(c: char): char {
    if c == '“' || c == '”' then '"'
    else if c == '‘' || c == '’' then '\''
    else c
  }

  /** `parse_json`: the parse of the quote-normalised text, or nil. */
  function ParseJson(candidate: string, parse: string -> Option<Value>): Option<Value> {
    parse(NormalizeQuotes(candidate))
  }

  predicate ParsesToHash(candidate: string, parse: string -> Option<Value>) {
    ParseJson(candidate, parse).Some? && ParseJson(candidate, parse).value.Hash?
  }

  /** `parse_json(candidate).is_a?(Hash)` as a test on candidates. */
  function HashTest(parse: string -> Option<Value>): string -> bool {
    c => ParsesToHash(c, parse)
  }

  /** The suffix of `s` from `j` on passes `isHash`. */
  predicate HashAt(s: string, j: int, isHash: string -> bool)
    requires 0 <= j <= |s|
  {
    isHash(s[j..])
  }

  // ---------------------------------------------------------------- payload tests

  /** `metadata_payload?`. */
  predicate MetadataPayload(parsed: Option<Value>) {
    parsed.Some? && parsed.value.Hash? &&
    var keys := ActionPayloadsKeyNames(parsed.value.entries);
    keys != [] &&
    ((exists k :: k in SignalKeys && k in keys) ||
     (forall k :: k in ControlTriplet ==> k in keys) ||
     ("should_generate_artifact" in keys && "flags" in keys))
  }

  /** `hash.keys.map(&:to_s)`. */
  function ActionPayloadsKeyNames(entries: seq<(Key, Value)>): (r: seq<string>)
    ensures |r| == |entries|
    ensures forall i :: 0 <= i < |entries| ==> r[i] == entries[i].0.name
  {
    seq(|entries|, i requires 0 <= i < |entries| => entries[i].0.name)
  }

  /** `appended_metadata_payload?`: any Hash counts when it starts a new line
      after a non-blank prefix and is at most 1500 characters long. */
  predicate AppendedMetadataPayload(fullText: string, jsonTail: string, parse: string -> Option<Value>) {
    ParsesToHash(jsonTail, parse) && |jsonTail| <= |fullText| &&
    var prefix := fullText[..|fullText| - |jsonTail|];
    RStrip(prefix) != [] && EndsWith(prefix, "\n") && |jsonTail| <= MaxAppendedLength
  }

  // ---------------------------------------------------------------- the fence

  /** The index of the last `}` of `body` that only regex whitespace follows. */
  function CloseEnd(body: string): (r: Option<nat>)
    ensures r.Some? ==> r.value < |body| && body[r.value] == '}'
    ensures r.Some? ==> forall i :: r.value < i < |body| ==> IsRegexSpace(body[i])
  {
    if body == [] then None
    else if IsRegexSpace(body[|body| - 1]) then CloseEnd(body[..|body| - 1])
    else if body[|body| - 1] == '}' then Some(|body| - 1)
    else None
  }

  /** The end of the run of regex whitespace starting at `q`. */
  function SpaceRunEnd(s: string, q: nat): (w: nat)
    requires q <= |s|
    ensures q <= w <= |s|
    ensures forall i :: q <= i < w ==> IsRegexSpace(s[i])
    ensures w == |s| || !IsRegexSpace(s[w])
    decreases |s| - q
  {
    if q < |s| && IsRegexSpace(s[q]) then SpaceRunEnd(s, q + 1) else q
  }

  /** Where `\s*\n\{` starting at `q` puts its `{`. */
  function OpenAt(s: string, q: nat): (r: Option<nat>)
    requires q <= |s|
    ensures r.Some? ==> q < r.value < |s| && s[r.value] == '{' && s[r.value - 1] == '\n'
  {
    var w := SpaceRunEnd(s, q);
    if w > q && s[w - 1] == '\n' && w < |s| && s[w] == '{' then Some(w) else None
  }

  /** The `json` group of FENCED_JSON_TAIL_REGEX when its match starts at `p`. */
  function FenceJsonAt(s: string, p: nat): (r: Option<string>)
    requires p <= |s|
    ensures r.Some? ==> p + 3 <= |s| && s[p..p + 3] == "```" && EndsWith(s, "```")
    ensures r.Some? ==> |r.value| >= 2 && r.value[0] == '{' && r.value[|r.value| - 1] == '}'
  {
    if !(p + 3 <= |s| && s[p..p + 3] == "```" && EndsWith(s, "```")) then None
    else
      var e := CloseEnd(s[..|s| - 3]);
      var q := p + 3;
      var withJson := if q + 4 <= |s| && Downcase(s[q..q + 4]) == "json" then OpenAt(s, q + 4) else None;
      var plain := OpenAt(s, q);
      if e.None? then None
      else if withJson.Some? && withJson.value < e.value then
        BracedSlice(s, withJson.value, e.value);
        Some(s[withJson.value..e.value + 1])
      else if plain.Some? && plain.value < e.value then
        BracedSlice(s, plain.value, e.value);
        Some(s[plain.value..e.value + 1])
      else None
  }

  /** From a `{` to a later `}` before the closing fence. */
  lemma BracedSlice(s: string, w: nat, e: nat)
    requires 3 <= |s| && w < e < |s| - 3 && s[w] == '{' && s[..|s| - 3][e] == '}'
    ensures var j := s[w..e + 1]; |j| >= 2 && j[0] == '{' && j[|j| - 1] == '}'
  {
  }

  /** The leftmost match of FENCED_JSON_TAIL_REGEX at or after `p`: its start and its `json` group. */
  function FenceMatchFrom(s: string, p: nat): (r: Option<(nat, string)>)
    requires p <= |s|
    ensures r.Some? ==> p <= r.value.0 && r.value.0 + 3 <= |s| && FenceJsonAt(s, r.value.0) == Some(r.value.1)
    decreases |s| - p
  {
    var m := FenceJsonAt(s, p);
    if m.Some? then Some((p, m.value))
    else if p == |s| then None
    else FenceMatchFrom(s, p + 1)
  }

  /** `strip_trailing_metadata_fence`. */
  function StripFence(stripped: string, parse: string -> Option<Value>): (r: Option<string>)
    ensures r.Some? ==> |r.value| < |stripped| && r.value == RStrip(stripped[..|r.value|])
  {
    var m := FenceMatchFrom(stripped, 0);
    if m.None? then None
    else
      var json := m.value.1;
      if MetadataPayload(ParseJson(json, parse)) || AppendedMetadataPayload(stripped, json, parse) then
        RStripOfPrefix(stripped, m.value.0);
        Some(RStrip(stripped[..m.value.0]))
      else None
  }

  lemma RStripOfPrefix(s: string, n: nat)
    requires n <= |s|
    ensures RStrip(s[..n]) == RStrip(s[..|RStrip(s[..n])|])
  {
    var r := RStrip(s[..n]);
    assert s[..n][..|r|] == s[..|r|];
    RStripOfTrimmedEnd(s[..|r|]);
  }

  /** Text that ends in a non-space is its own right strip. */
  lemma RStripOfTrimmedEnd(s: string)
    requires s == [] || !IsStripSpace(s[|s| - 1])
    ensures RStrip(s) == s
  {
  }

  // ---------------------------------------------------------------- the bare object

  /** `s.rindex(c, from)`. */
  function RIndex(s: string, c: char, from: int): (r: Option<nat>)
    requires from < |s|
    ensures r.Some? ==> r.value <= from && s[r.value] == c
    ensures r.Some? ==> forall j :: r.value < j <= from ==> s[j] != c
    ensures r.None? ==> forall j :: 0 <= j <= from ==> s[j] != c
    decreases from + 1
  {
    if from < 0 then None
    else if s[from] == c then Some(from)
    else RIndex(s, c, from - 1)
  }

  /** The `{` that opens the last Hash-parsing candidate at or before `from`. */
  function TrailingOpening(s: string, from: int, isHash: string -> bool): (r: Option<nat>)
    requires from < |s|
    ensures r.Some? ==> r.value <= from && s[r.value] == '{' && HashAt(s, r.value, isHash)
    decreases from + 1
  {
    if from < 0 then None
    else
      var o := RIndex(s, '{', from);
      if o.None? then None
      else if HashAt(s, o.value, isHash) then o
      else TrailingOpening(s, o.value - 1, isHash)
  }

  /** The characterisation of `trailing_json_object`: it finds the rightmost
      `{` whose suffix parses to a Hash, or none when there is no such `{`. */
  lemma {:induction false} TrailingOpeningSpec(s: string, from: int, isHash: string -> bool)
    requires from < |s|
    ensures var r := TrailingOpening(s, from, isHash);
      (r.Some? ==> forall j :: r.value < j <= from && s[j] == '{' ==> !HashAt(s, j, isHash)) &&
      (r.None? ==> forall j :: 0 <= j <= from && s[j] == '{' ==> !HashAt(s, j, isHash))
    decreases from + 1
  {
    if from >= 0 {
      var o := RIndex(s, '{', from);
      if o.Some? && !HashAt(s, o.value, isHash) {
        var before := o.value as int - 1;
        assert TrailingOpening(s, from, isHash) == TrailingOpening(s, before, isHash);
        TrailingOpeningSpec(s, before, isHash);
        // Between the `{` just rejected and `from` there is no other.
        assert forall j :: before < j <= from && s[j] == '{' ==> j == o.value;
      }
    }
  }

  /** `trailing_json_object`: walks `search_from` leftwards over the `{`s. */
  method TrailingJsonObject(stripped: string, parse: string -> Option<Value>)
    returns (jsonText: Option<string>, parsed: Option<Value>)
    ensures var o := TrailingOpening(stripped, |stripped| - 1, HashTest(parse));
      (o.None? ==> jsonText.None? && parsed.None?) &&
      (o.Some? ==> jsonText == Some(stripped[o.value..]) && parsed == ParseJson(stripped[o.value..], parse))
  {
    var searchFrom: int := |stripped| - 1;
    while searchFrom >= 0
      invariant -1 <= searchFrom < |stripped|
      invariant TrailingOpening(stripped, searchFrom, HashTest(parse)) == TrailingOpening(stripped, |stripped| - 1, HashTest(parse))
      decreases searchFrom + 1
    {
      var opening := RIndex(stripped, '{', searchFrom);
      if opening.None? {
        break;
      }
      var candidate := stripped[opening.value..];
      var p := ParseJson(candidate, parse);
      if p.Some? && p.value.Hash? {
        return Some(candidate), p;
      }
      searchFrom := opening.value as int - 1;
    }
    return None, None;
  }

  /** `strip_trailing_metadata_object`, with `trailing_json_object` as its specification. */
  function StripObject(stripped: string, parse: string -> Option<Value>): (r: Option<string>)
    ensures r.Some? ==> |r.value| < |stripped| && r.value == RStrip(stripped[..|r.value|])
  {
    if !EndsWith(stripped, "}") then None
    else
      var o := TrailingOpening(stripped, |stripped| - 1, HashTest(parse));
      if o.None? then None
      else
        var json := stripped[o.value..];
        if MetadataPayload(ParseJson(json, parse)) || AppendedMetadataPayload(stripped, json, parse) then
          assert |stripped| - |json| == o.value;
          RStripOfPrefix(stripped, o.value);
          Some(RStrip(stripped[..o.value]))
        else None
  }

  lemma PrefixOfRStrip(text: string, k: nat)
    requires k <= |RStrip(text)|
    ensures RStrip(text)[..k] == text[..k]
  {
  }

  /** `CleanReplyText.call`. */
  function Clean(text: string, parse: string -> Option<Value>): (r: string)
    ensures r == text || (|r| < |text| && r == RStrip(text[..|r|]))
  {
    var stripped := RStrip(text);
    if stripped == [] then text
    else
      var fence := StripFence(stripped, parse);
      if fence.Some? then
        PrefixOfRStrip(text, |fence.value|);
        fence.value
      else
        var obj := StripObject(stripped, parse);
        if obj.Some? then
          PrefixOfRStrip(text, |obj.value|);
          obj.value
        else text
  }

  // ---------------------------------------------------------------- properties

  /** A reply that, once right-stripped, neither ends in `}` nor in a fence
      comes back unchanged. */
  lemma PlainTextUnchanged(text: string, parse: string -> Option<Value>)
    requires !EndsWith(RStrip(text), "}") && !EndsWith(RStrip(text), "```")
    ensures Clean(text, parse) == text
  {
  }

  /** A `{` whose suffix parses to a Hash, with no such `{` after it, is the
      one `trailing_json_object` finds. */
  lemma {:induction false} TrailingFinds(s: string, from: int, o: nat, isHash: string -> bool)
    requires o <= from < |s| && s[o] == '{' && HashAt(s, o, isHash)
    requires forall j :: o < j <= from && s[j] == '{' ==> !HashAt(s, j, isHash)
    ensures TrailingOpening(s, from, isHash) == Some(o)
    decreases from
  {
    var r := RIndex(s, '{', from);
    assert r.Some?;
    if r.value != o {
      TrailingFinds(s, r.value as int - 1, o, isHash);
    }
  }

  lemma TrailingFindsObject(prefix: string, json: string, isHash: string -> bool)
    requires json != [] && json[0] == '{' && isHash(json)
    requires forall j :: 0 < j < |json| && json[j] == '{' ==> !HashAt(json, j, isHash)
    ensures TrailingOpening(prefix + json, |prefix + json| - 1, isHash) == Some(|prefix|)
  {
    var s := prefix + json;
    assert s[|prefix|..] == json;
    forall j | |prefix| < j < |s| && s[j] == '{'
      ensures !HashAt(s, j, isHash)
    {
      assert s[j..] == json[j - |prefix|..];
      assert json[j - |prefix|] == '{';
    }
    TrailingFinds(s, |s| - 1, |prefix|, isHash);
  }

  /** A trailing metadata object (a signal key, the control triplet, or
      `should_generate_artifact` with `flags`) is cut off, with the
      whitespace before it. */
  lemma StripsTrailingMetadata(prefix: string, json: string, parse: string -> Option<Value>)
    requires |json| >= 2 && json[0] == '{' && json[|json| - 1] == '}'
    requires MetadataPayload(ParseJson(json, parse))
    requires forall j :: 0 < j < |json| && json[j] == '{' ==> !HashAt(json, j, HashTest(parse))
    ensures Clean(prefix + json, parse) == RStrip(prefix)
  {
    var s := prefix + json;
    CleanAfterBrace(s, parse);
    ObjectCut(prefix, json, parse);
  }

  /** Text ending in `}` goes straight to `strip_trailing_metadata_object`. */
  lemma CleanAfterBrace(s: string, parse: string -> Option<Value>)
    requires s != [] && s[|s| - 1] == '}'
    ensures Clean(s, parse) == (if StripObject(s, parse).Some? then StripObject(s, parse).value else s)
  {
    RStripOfTrimmedEnd(s);
    NoFenceAfterBrace(s);
  }

  /** The pieces `strip_trailing_metadata_object` sees for a trailing object. */
  lemma ObjectCut(prefix: string, json: string, parse: string -> Option<Value>)
    requires |json| >= 2 && json[0] == '{' && json[|json| - 1] == '}' && ParsesToHash(json, parse)
    requires forall j :: 0 < j < |json| && json[j] == '{' ==> !HashAt(json, j, HashTest(parse))
    ensures var s := prefix + json;
      EndsWith(s, "}") && TrailingOpening(s, |s| - 1, HashTest(parse)) == Some(|prefix|) &&
      s[|prefix|..] == json && s[..|prefix|] == prefix && s[..|s| - |json|] == prefix
  {
    var s := prefix + json;
    assert s[|s| - 1..] == "}";
    TrailingFindsObject(prefix, json, HashTest(parse));
    assert s[|prefix|..] == json;
    assert s[..|prefix|] == prefix;
  }

  /** Any other Hash is cut off only when it starts a new line after a
      non-blank prefix and is at most 1500 characters long. */
  lemma StripsAppendedObject(prefix: string, json: string, parse: string -> Option<Value>)
    requires |json| >= 2 && json[0] == '{' && json[|json| - 1] == '}' && ParsesToHash(json, parse)
    requires forall j :: 0 < j < |json| && json[j] == '{' ==> !HashAt(json, j, HashTest(parse))
    requires !MetadataPayload(ParseJson(json, parse))
    ensures Clean(prefix + json, parse) ==
      (if RStrip(prefix) != [] && EndsWith(prefix, "\n") && |json| <= MaxAppendedLength then RStrip(prefix)
       else prefix + json)
  {
    var s := prefix + json;
    CleanAfterBrace(s, parse);
    ObjectCut(prefix, json, parse);
    assert AppendedMetadataPayload(s, json, parse) <==>
      (RStrip(prefix) != [] && EndsWith(prefix, "\n") && |json| <= MaxAppendedLength);
  }

  /** Text ending in `}` has no trailing fence. */
  lemma NoFenceAfterBrace(s: string)
    requires s != [] && s[|s| - 1] == '}'
    ensures FenceMatchFrom(s, 0).None?
  {
    if |s| >= 3 {
      assert s[|s| - 3..][2] == s[|s| - 1];
    }
    assert !EndsWith(s, "```");
  }

  lemma NoFenceAt(s: string, p: nat)
    requires p < |s| && s[p] != '`'
    ensures FenceJsonAt(s, p).None?
  {
    if p + 3 <= |s| {
      assert s[p..p + 3][0] == s[p];
    }
  }

  /** In text whose prefix has no backticks, the leftmost fence match is the
      ```json block right after the prefix, and its group is the object. */
  lemma FenceAfterPlainText(prefix: string, json: string)
    requires forall i :: 0 <= i < |prefix| ==> prefix[i] != '`'
    requires |json| >= 2 && json[0] == '{' && json[|json| - 1] == '}'
    ensures var s := prefix + "```json\n" + json + "\n```";
      FenceMatchFrom(s, 0) == Some((|prefix|, json)) && s[..|prefix|] == prefix && s[|s| - 1] == '`'
  {
    var s := prefix + "```json\n" + json + "\n```";
    var n := |prefix|;
    FenceAtPrefix(prefix, json);
    forall p' | 0 <= p' < n
      ensures FenceJsonAt(s, p').None?
    {
      assert s[p'] == prefix[p'];
      NoFenceAt(s, p');
    }
    FenceMatchSkips(s, 0, n);
    assert FenceMatchFrom(s, n) == Some((n, json));
    assert s[..n] == prefix;
  }

  /** A metadata block in the leftmost trailing fence is removed, with the
      fence and the whitespace before it (FenceAfterPlainText says where the
      fence of a reply like "Here's the update.\n```json\n{...}\n```" starts). */
  lemma CleanFence(s: string, n: nat, json: string, parse: string -> Option<Value>)
    requires s != [] && !IsStripSpace(s[|s| - 1])
    requires FenceMatchFrom(s, 0) == Some((n, json)) && MetadataPayload(ParseJson(json, parse))
    ensures n <= |s| && Clean(s, parse) == RStrip(s[..n])
  {
    RStripOfTrimmedEnd(s);
  }

  /** Where FENCED_JSON_TAIL_REGEX matches a ```json fence. */
  lemma FenceAtPrefix(prefix: string, json: string)
    requires |json| >= 2 && json[0] == '{' && json[|json| - 1] == '}'
    ensures var s := prefix + "```json\n" + json + "\n```";
      FenceJsonAt(s, |prefix|) == Some(json)
  {
    var s := prefix + "```json\n" + json + "\n```";
    var n := |prefix|;
    assert s[n..n + 3] == "```";
    assert s[n + 3..n + 7] == "json";
    DowncaseOfLower("json");
    assert s[|s| - 3..] == "```";
    var body := s[..|s| - 3];
    assert body == prefix + "```json\n" + json + "\n";
    assert body[..|body| - 1] == prefix + "```json\n" + json;
    assert CloseEnd(body) == Some(n + 7 + |json|);
    assert s[n + 7] == '\n' && s[n + 8] == '{';
    assert SpaceRunEnd(s, n + 8) == n + 8;
    assert SpaceRunEnd(s, n + 7) == n + 8;
    assert OpenAt(s, n + 7) == Some(n + 8);
    FenceJsonAtTagged(s, n, n + 7 + |json|, n + 8);
    assert s[n + 8..n + 8 + |json|] == json;
  }

  /** A ```json fence whose `{` comes before the last `}`. */
  lemma FenceJsonAtTagged(s: string, p: nat, e: nat, w: nat)
    requires p + 7 <= |s| && s[p..p + 3] == "```" && EndsWith(s, "```")
    requires CloseEnd(s[..|s| - 3]) == Some(e)
    requires Downcase(s[p + 3..p + 7]) == "json" && OpenAt(s, p + 7) == Some(w) && w < e
    ensures FenceJsonAt(s, p) == Some(s[w..e + 1])
  {
  }

  lemma {:induction false} FenceMatchSkips(s: string, p: nat, n: nat)
    requires p <= n <= |s|
    requires forall p' :: p <= p' < n ==> FenceJsonAt(s, p').None?
    ensures FenceMatchFrom(s, p) == FenceMatchFrom(s, n)
    decreases n - p
  {
    if p < n {
      FenceMatchSkips(s, p + 1, n);
    }
  }

  /** `metadata_payload?` entry by entry. */
  lemma MetadataPayloadIff(entries: seq<(Key, Value)>)
    ensures MetadataPayload(Some(Hash(entries))) <==>
      (entries != [] &&
       ((exists i :: 0 <= i < |entries| && entries[i].0.name in SignalKeys) ||
        (forall k :: k in ControlTriplet ==> exists i :: 0 <= i < |entries| && entries[i].0.name == k) ||
        ((exists i :: 0 <= i < |entries| && entries[i].0.name == "should_generate_artifact") &&
         (exists i :: 0 <= i < |entries| && entries[i].0.name == "flags"))))
  {
    var keys := ActionPayloadsKeyNames(entries);
    if exists i :: 0 <= i < |entries| && entries[i].0.name in SignalKeys {
      var i :| 0 <= i < |entries| && entries[i].0.name in SignalKeys;
      assert keys[i] in SignalKeys;
    }
    if exists k :: k in SignalKeys && k in keys {
      var k :| k in SignalKeys && k in keys;
      var i :| 0 <= i < |keys| && keys[i] == k;
      assert entries[i].0.name in SignalKeys;
    }
  }
}
