/** `Ai::Artifacts::Dataset::Extract`: reads the inert dataset JSON and a
    best-effort list of sources out of generated artifact HTML. It fails
    closed: a missing, blank, oversized, unparsable or malformed dataset
    gives nil. The HTML parser is not modelled: the text of the
    `script#artifact_dataset` node and the items of the list after the
    "Sources" heading are given. */
module DatasetExtract {
  import opened Wrappers
  import opened Text
  import opened Values

  const MaxJsonBytes: nat := 150000
  const MaxSourcesItems: nat := 50
  const MaxSourceTextChars: nat := 500
  const MaxHrefChars: nat := 2000

  // ---------------------------------------------------------------- dataset

  /** Every item of `items` is a String. */
  predicate AllStrings(items: seq<Value>) {
    forall i :: 0 <= i < |items| ==> items[i].Str?
  }

  /** Every item of `items` is an Array. */
  predicate AllArrays(items: seq<Value>) {
    forall i :: 0 <= i < |items| ==> items[i].Arr?
  }

  /** `valid_dataset_entry?`. */
  predicate ValidDatasetEntry(ds: Value) {
    ds.Hash? &&
    var schema := ReadKey(ds.entries, "schema");
    var rows := ReadKey(ds.entries, "rows");
    schema.Arr? && AllStrings(schema.items) && rows.Arr? && AllArrays(rows.items)
  }

  /** `valid_dataset_object?`. */
  predicate ValidDatasetObject(obj: Value) {
    obj.Hash? &&
    ReadKey(obj.entries, "version").Int? &&
    var datasets := ReadKey(obj.entries, "datasets");
    datasets.Arr? && datasets.items != [] &&
    forall i :: 0 <= i < |datasets.items| ==> ValidDatasetEntry(datasets.items[i])
  }

  /** `extract_dataset_json`, with the dataset script's text as `script`
      (None when the node is missing) and `JSON.parse` as `parse` (None
      when it raises). */
  function DatasetJson(html: string, script: Option<string>, parse: string -> Option<Value>): (r: Value)
    ensures r == Nil || (r.Hash? && ValidDatasetObject(r))
    ensures Blank(html) || script.None? ==> r == Nil
    ensures script.Some? && (Blank(Strip(script.value)) || ByteSize(Strip(script.value)) > MaxJsonBytes) ==> r == Nil
    ensures r != Nil ==> script.Some? && parse(Strip(script.value)) == Some(r)
    ensures (!Blank(html) && script.Some? && !Blank(Strip(script.value)) && ByteSize(Strip(script.value)) <= MaxJsonBytes &&
      parse(Strip(script.value)).Some? && ValidDatasetObject(parse(Strip(script.value)).value)) ==>
      r == parse(Strip(script.value)).value
  {
    if Blank(html) then Nil
    else match script
      case None => Nil
      case Some(text) =>
        var raw := Strip(text);
        if Blank(raw) || ByteSize(raw) > MaxJsonBytes then Nil
        else match parse(raw)
          case None => Nil
          case Some(parsed) => if ValidDatasetObject(parsed) then parsed else Nil
  }

  // ---------------------------------------------------------------- sources

  /** A list item of the sources list: its text, and the `href` of its
      first link ("" when it has none). */
  datatype SourceItem = SourceItem(text: string, href: string)

  /** `href.split(":", 2).first`: the text before the first colon. */
  function BeforeColon(s: string): (r: string)
    ensures |r| <= |s| && r == s[..|r|]
    ensures forall i :: 0 <= i < |r| ==> r[i] != ':'
    ensures |r| < |s| ==> s[|r|] == ':'
  {
    if s == [] || s[0] == ':' then [] else [s[0]] + BeforeColon(s[1..])
  }

  const UnsafeSchemes: seq<string> := ["javascript", "data", "vbscript"]

  /** The scheme of an href, lower-cased. */
  function Scheme(href: string): string {
    Downcase(BeforeColon(href))
  }

  /** The href kept for an item: stripped, capped, and dropped when blank
      or of an unsafe scheme. */
  function CleanHref(href: string): (r: Option<string>)
    ensures r.Some? ==> |r.value| <= MaxHrefChars && Scheme(r.value) !in UnsafeSchemes
    ensures r.Some? ==> r.value == Take(Strip(href), MaxHrefChars)
    ensures Blank(Strip(href)) ==> r.None?
  {
    var h := Strip(href);
    if Blank(h) then None
    else
      var capped := Take(h, MaxHrefChars);
      if Scheme(capped) in UnsafeSchemes then None else Some(capped)
  }

  /** What an entry holds: text of 1 to 500 characters, and an href only
      when a safe one of at most 2000 characters was given. */
  predicate WellFormedEntry(e: Value) {
    e.Hash? && 1 <= |e.entries| <= 2 &&
    e.entries[0].0 == SymKey("text") && e.entries[0].1.Str? &&
    e.entries[0].1.s != [] && |e.entries[0].1.s| <= MaxSourceTextChars &&
    (|e.entries| == 2 ==>
      (e.entries[1].0 == SymKey("href") && e.entries[1].1.Str? &&
       |e.entries[1].1.s| <= MaxHrefChars && Scheme(e.entries[1].1.s) !in UnsafeSchemes))
  }

  predicate AllWellFormed(entries: seq<Value>) {
    forall i :: 0 <= i < |entries| ==> WellFormedEntry(entries[i])
  }

  /** The entry stored for one item, nil for an item with blank text. */
  function SourceEntry(item: SourceItem): (r: Option<Value>)
    ensures r.None? <==> Blank(Strip(item.text))
    ensures r.Some? ==> WellFormedEntry(r.value)
  {
    var text := Strip(item.text);
    if Blank(text) then None
    else
      var t := Take(text, MaxSourceTextChars);
      var href := CleanHref(item.href);
      EntryValueWellFormed(t, href);
      Some(EntryValue(t, href))
  }

  /** The hash `{ text: t }`, with `href: h` added when one was kept. */
  function EntryValue(t: string, href: Option<string>): Value {
    var entry := [(SymKey("text"), Str(t))];
    match href
    case Some(h) => Hash(entry + [(SymKey("href"), Str(h))])
    case None => Hash(entry)
  }

  lemma EntryValueWellFormed(t: string, href: Option<string>)
    requires 1 <= |t| <= MaxSourceTextChars
    requires href.Some? ==> |href.value| <= MaxHrefChars && Scheme(href.value) !in UnsafeSchemes
    ensures WellFormedEntry(EntryValue(t, href))
  {
  }

  /** `map { ... }.compact` over the items. */
  function Entries(items: seq<SourceItem>): (r: seq<Value>)
    ensures |r| <= |items| && AllWellFormed(r)
  {
    if items == [] then []
    else
      var rest := Entries(items[1..]);
      match SourceEntry(items[0])
      case Some(e) => EntryBefore(e, rest); [e] + rest
      case None => rest
  }

  lemma EntryBefore(e: Value, rest: seq<Value>)
    requires WellFormedEntry(e) && AllWellFormed(rest)
    ensures AllWellFormed([e] + rest)
  {
    var r := [e] + rest;
    forall i | 0 < i < |r| ensures r[i] == rest[i - 1] {
    }
  }

  /** `extract_sources_json`, with the items of the list after the
      "Sources" heading as `items` (None when no heading or list exists). */
  function SourcesJson(html: string, items: Option<seq<SourceItem>>): (r: Value)
    ensures r == Nil || (r.Arr? && 0 < |r.items| <= MaxSourcesItems && AllWellFormed(r.items))
    ensures Blank(html) || items.None? ==> r == Nil
  {
    if Blank(html) || items.None? then Nil
    else
      var first := if |items.value| <= MaxSourcesItems then items.value else items.value[..MaxSourcesItems];
      var entries := Entries(first);
      if entries == [] then Nil else Arr(entries)
  }

  /** `call`: both fields. */
  function Call(html: string, script: Option<string>, items: Option<seq<SourceItem>>,
                parse: string -> Option<Value>): (r: (Value, Value))
    ensures r.0 == DatasetJson(html, script, parse) && r.1 == SourcesJson(html, items)
    ensures Blank(html) ==> r == (Nil, Nil)
    ensures r.0 == Nil || ValidDatasetObject(r.0)
    ensures r.1 == Nil || (r.1.Arr? && 0 < |r.1.items| <= MaxSourcesItems && AllWellFormed(r.1.items))
  {
    (DatasetJson(html, script, parse), SourcesJson(html, items))
  }

  // ---------------------------------------------------------------- properties

  /** The scheme is the text before the first colon. */
  lemma {:induction false} BeforeColonOf(p: string, rest: string)
    requires forall i :: 0 <= i < |p| ==> p[i] != ':'
    ensures BeforeColon(p + ":" + rest) == p
  {
    if p != [] {
      assert (p + ":" + rest)[1..] == p[1..] + ":" + rest;
      BeforeColonOf(p[1..], rest);
    } else {
      assert (p + ":" + rest)[0] == ':';
    }
  }

  /** A link whose stripped href starts with "javascript:" is never kept. */
  lemma JavascriptDropped(href: string)
    requires StartsWith(Strip(href), "javascript:")
    ensures CleanHref(href).None?
  {
    var capped := Take(Strip(href), MaxHrefChars);
    assert capped[..11] == Strip(href)[..11];
    JavascriptScheme(capped);
  }

  lemma JavascriptScheme(capped: string)
    requires StartsWith(capped, "javascript:")
    ensures Scheme(capped) in UnsafeSchemes
  {
    var scheme, rest := UnsafeSchemes[0], capped[11..];
    assert capped == scheme + ":" + rest;
    BeforeColonOf(scheme, rest);
    DowncaseOfLower(scheme);
  }
}
