/** `Ai::Links::Harden`: every anchor of a generated page loses an `href`
    whose scheme is not http, https, mailto or tel, and, when links open in a
    new tab, gets `target="_blank"` and a `rel` holding noopener and
    noreferrer. An anchor is an object whose attributes are updated in place. */
module Harden {
  import opened Wrappers
  import opened Text

  const SafeSchemes: seq<string> := ["http", "https", "mailto", "tel"]
  const RequiredRelTokens: seq<string> := ["noopener", "noreferrer"]
  const SafePrefixes: seq<string> := ["#", "/", "./", "../", "?"]

  // ---------------------------------------------------------------- schemes

  /** A character of `[a-zA-Z0-9+\-.]`. */
  predicate IsSchemeChar(c: char) { IsAlnum(c) || c == '+' || c == '-' || c == '.' }

  /** A scheme name `[a-zA-Z][a-zA-Z0-9+\-.]*`. */
  predicate IsSchemeName(s: string) {
    s != [] && IsLetter(s[0]) && forall i :: 0 <= i < |s| ==> IsSchemeChar(s[i])
  }

  /** The longest run of scheme characters at the start of `s`. */
  function SchemeRun(s: string): (n: nat)
    ensures n <= |s|
    ensures forall i :: 0 <= i < n ==> IsSchemeChar(s[i])
    ensures n < |s| ==> !IsSchemeChar(s[n])
  {
    if s != [] && IsSchemeChar(s[0]) then 1 + SchemeRun(s[1..]) else 0
  }

  /** The capture of `/\A([a-zA-Z][a-zA-Z0-9+\-.]*):/`, if it matches. */
  function Scheme(href: string): (r: Option<string>)
    ensures r.Some? ==> (IsSchemeName(r.value) && |r.value| < |href| &&
      href[..|r.value|] == r.value && href[|r.value|] == ':')
  {
    var n := SchemeRun(href);
    if n > 0 && IsLetter(href[0]) && n < |href| && href[n] == ':' then Some(href[..n]) else None
  }

  predicate HasSafePrefix(href: string) {
    exists i :: 0 <= i < |SafePrefixes| && StartsWith(href, SafePrefixes[i])
  }

  /** `unsafe_href?`. */
  predicate UnsafeHref(href: string) {
    !HasSafePrefix(href) &&
    match Scheme(href)
    case None => false
    case Some(scheme) => Downcase(scheme) !in SafeSchemes
  }

  // ---------------------------------------------------------------- rel tokens

  /** `rel.to_s.split(/\s+/).map(&:downcase).reject(&:blank?)` (lower-casing
      keeps blankness, so rejecting before or after it is the same). */
  function RelTokens(rel: string): seq<string> {
    Lowered(NonBlank(Words(rel)))
  }

  function NonBlank(ws: seq<string>): seq<string> {
    if ws == [] then [] else (if AllSpace(ws[0]) then [] else [ws[0]]) + NonBlank(ws[1..])
  }

  /** `blank?` written character by character. */
  predicate AllSpace(s: string) {
    s == [] || (IsUnicodeSpace(s[0]) && AllSpace(s[1..]))
  }

  lemma {:induction false} AllSpaceIsBlank(s: string)
    ensures AllSpace(s) == Blank(s)
  {
    if s != [] {
      AllSpaceIsBlank(s[1..]);
      assert forall i :: 1 <= i < |s| ==> s[i] == s[1..][i - 1];
    }
  }

  function Lowered(ws: seq<string>): seq<string> {
    if ws == [] then [] else [Downcase(ws[0])] + Lowered(ws[1..])
  }

  lemma {:induction false} LoweredSpec(ws: seq<string>)
    ensures |Lowered(ws)| == |ws|
    ensures forall i :: 0 <= i < |ws| ==> Lowered(ws)[i] == Downcase(ws[i])
  {
    if ws != [] {
      LoweredSpec(ws[1..]);
    }
  }

  lemma DowncaseKeepsBlank(s: string)
    ensures Blank(Downcase(s)) == Blank(s)
  {
    assert forall i :: 0 <= i < |s| ==> (IsUnicodeSpace(Downcase(s)[i]) <==> IsUnicodeSpace(s[i]));
  }

  lemma {:induction false} NonBlankSpec(ws: seq<string>)
    ensures forall w :: w in NonBlank(ws) <==> w in ws && !Blank(w)
  {
    if ws != [] {
      NonBlankSpec(ws[1..]);
      AllSpaceIsBlank(ws[0]);
    }
  }

  /** No token is blank, and the tokens are the lower-cased words of `rel`. */
  lemma RelTokensSpec(rel: string)
    ensures forall t :: t in RelTokens(rel) ==> !Blank(t)
    ensures forall t :: t in RelTokens(rel) <==> exists w :: w in Words(rel) && !Blank(w) && t == Downcase(w)
  {
    var nb := NonBlank(Words(rel));
    NonBlankSpec(Words(rel));
    LoweredSpec(nb);
    forall t | t in RelTokens(rel)
      ensures !Blank(t) && exists w :: w in Words(rel) && !Blank(w) && t == Downcase(w)
    {
      var i :| 0 <= i < |nb| && RelTokens(rel)[i] == t;
      DowncaseKeepsBlank(nb[i]);
      assert nb[i] in nb;
    }
    forall t | (exists w :: w in Words(rel) && !Blank(w) && t == Downcase(w)) ensures t in RelTokens(rel) {
      var w :| w in Words(rel) && !Blank(w) && t == Downcase(w);
      var i :| 0 <= i < |nb| && nb[i] == w;
      assert RelTokens(rel)[i] == t;
    }
  }

  /** The tokens after the loop over REQUIRED_REL_TOKENS: each required token
      not already present is appended. */
  function AddMissing(tokens: seq<string>, required: seq<string>): seq<string>
    decreases |required|
  {
    if required == [] then tokens
    else AddMissing(if required[0] in tokens then tokens else tokens + [required[0]], required[1..])
  }

  /** The required tokens absent from `tokens`, in order. */
  function Absent(required: seq<string>, tokens: seq<string>): (r: seq<string>)
    ensures forall t :: t in r <==> t in required && t !in tokens
  {
    if required == [] then []
    else (if required[0] in tokens then [] else [required[0]]) + Absent(required[1..], tokens)
  }

  predicate NoDuplicates(s: seq<string>) {
    forall i, j :: 0 <= i < j < |s| ==> s[i] != s[j]
  }

  /** The REQUIRED_REL_TOKENS loop. */
  method AppendRequired(tokens: seq<string>) returns (r: seq<string>)
    ensures r == AddMissing(tokens, RequiredRelTokens)
  {
    r := tokens;
    for i := 0 to |RequiredRelTokens|
      invariant AddMissing(r, RequiredRelTokens[i..]) == AddMissing(tokens, RequiredRelTokens)
    {
      var token := RequiredRelTokens[i];
      assert RequiredRelTokens[i..][1..] == RequiredRelTokens[i + 1..];
      if token !in r {
        r := r + [token];
      }
    }
    assert RequiredRelTokens[|RequiredRelTokens|..] == [];
  }

  // ---------------------------------------------------------------- anchors

  /** The attributes of an `<a>` node that hardening reads or writes. */
  class Anchor {
    var href: Option<string>
    var target: Option<string>
    var rel: Option<string>

    constructor(href0: Option<string>, target0: Option<string>, rel0: Option<string>)
      ensures href == href0 && target == target0 && rel == rel0
    {
      href := href0;
      target := target0;
      rel := rel0;
    }
  }

  /** `node["href"].to_s`: an absent attribute reads as "". */
  function AttrText(a: Option<string>): string {
    a.GetOr("")
  }

  /** The `href` after hardening: removed when its stripped text is unsafe
      (an unsafe href starts with a letter, so the source's `present?` test
      adds nothing, see `UnsafeIsPresent`), otherwise left as it was. */
  function HardenedHref(href: Option<string>): (r: Option<string>)
    ensures r == None <==> href == None || UnsafeHref(StrippedHref(href))
    ensures r.Some? ==> r == href && !UnsafeHref(StrippedHref(r))
  {
    if UnsafeHref(StrippedHref(href)) then None else href
  }

  /** `node["href"].to_s.strip`, written out here (see `StrippedHrefIsStrip`)
      so that reasoning about many anchors does not carry the general
      properties of `Strip`. */
  function StrippedHref(href: Option<string>): string {
    Trim(AttrText(href))
  }

  lemma StrippedHrefIsStrip(href: Option<string>)
    ensures StrippedHref(href) == Strip(AttrText(href))
  {
    TrimIsStrip(AttrText(href));
  }

  /** The `rel` written when links open in a new tab: the existing tokens,
      then noopener and noreferrer where missing (see `WithRequiredIsAddMissing`). */
  function HardenedRel(rel: Option<string>): string {
    Join(WithRequired(RelTokens(AttrText(rel))), " ")
  }

  /** `tokens << token unless tokens.include?(token)`. */
  function AppendMissing(tokens: seq<string>, token: string): seq<string> {
    if token in tokens then tokens else tokens + [token]
  }

  function WithRequired(tokens: seq<string>): seq<string> {
    AppendMissing(AppendMissing(tokens, "noopener"), "noreferrer")
  }

  /** `harden_anchor!`. */
  method HardenAnchor(node: Anchor, targetBlank: bool)
    modifies node
    ensures Attrs(node) == Hardened(old(node.href), old(node.target), old(node.rel), targetBlank)
  {
    DropUnsafeHref(node);
    if targetBlank {
      OpenInNewTab(node);
    }
  }

  /** The `href` half: an unsafe link loses its `href`; nothing else changes. */
  method DropUnsafeHref(node: Anchor)
    modifies node
    ensures node.href == HardenedHref(old(node.href))
    ensures node.target == old(node.target) && node.rel == old(node.rel)
  {
    var href := Strip(AttrText(node.href));
    UnsafeIsPresent(href);
    StrippedHrefIsStrip(node.href);
    if !Blank(href) && UnsafeHref(href) {
      node.href := None;
    }
  }

  /** The `target_blank` half: the link opens in a new tab and `rel` gets the
      required tokens; the `href` is kept. */
  method OpenInNewTab(node: Anchor)
    modifies node
    ensures node.href == old(node.href)
    ensures node.target == Some("_blank") && node.rel == Some(HardenedRel(old(node.rel)))
  {
    node.target := Some("_blank");
    var relTokens := RelTokens(AttrText(node.rel));
    relTokens := AppendRequired(relTokens);
    WithRequiredIsAddMissing(RelTokens(AttrText(node.rel)));
    node.rel := Some(Join(relTokens, " "));
  }

  /** `harden_anchor_nodes!` over the anchors of a page (distinct nodes). */
  method HardenAnchors(nodes: seq<Anchor>, targetBlank: bool)
    requires forall i, j :: 0 <= i < j < |nodes| ==> nodes[i] != nodes[j]
    modifies nodes
    ensures forall i :: 0 <= i < |nodes| ==>
      Attrs(nodes[i]) == Hardened(old(nodes[i].href), old(nodes[i].target), old(nodes[i].rel), targetBlank)
  {
    ghost var hrefs := seq(|nodes|, i requires 0 <= i < |nodes| reads nodes => nodes[i].href);
    ghost var targets := seq(|nodes|, i requires 0 <= i < |nodes| reads nodes => nodes[i].target);
    ghost var rels := seq(|nodes|, i requires 0 <= i < |nodes| reads nodes => nodes[i].rel);
    ghost var harden := (h: Option<string>, t: Option<string>, r: Option<string>) => Hardened(h, t, r, targetBlank);
    ghost var wanted := Plan(hrefs, targets, rels, harden);
    for k := 0 to |nodes|
      invariant forall i :: 0 <= i < k ==> Attrs(nodes[i]) == wanted[i]
      invariant forall i :: k <= i < |nodes| ==> Attrs(nodes[i]) == (hrefs[i], targets[i], rels[i])
    {
      PlanAt(hrefs, targets, rels, harden, k);
      var node := nodes[k];
      assert Attrs(node) == (hrefs[k], targets[k], rels[k]);
      HardenAnchor(node, targetBlank);
      assert Attrs(node) == wanted[k];
    }
    forall i | 0 <= i < |nodes|
      ensures Attrs(nodes[i]) == Hardened(old(nodes[i].href), old(nodes[i].target), old(nodes[i].rel), targetBlank)
    {
      PlanAt(hrefs, targets, rels, harden, i);
    }
  }

  /** The attributes every anchor is to end with, in order. */
  ghost function Plan<T, U>(hrefs: seq<T>, targets: seq<T>, rels: seq<T>, f: (T, T, T) -> U): (r: seq<U>)
    requires |hrefs| == |targets| == |rels|
    ensures |r| == |hrefs|
  {
    if hrefs == [] then []
    else [f(hrefs[0], targets[0], rels[0])] + Plan(hrefs[1..], targets[1..], rels[1..], f)
  }

  lemma {:induction false} PlanAt<T, U>(hrefs: seq<T>, targets: seq<T>, rels: seq<T>, f: (T, T, T) -> U, i: nat)
    requires |hrefs| == |targets| == |rels| && i < |hrefs|
    ensures Plan(hrefs, targets, rels, f)[i] == f(hrefs[i], targets[i], rels[i])
  {
    if i > 0 {
      PlanAt(hrefs[1..], targets[1..], rels[1..], f, i - 1);
    }
  }

  type AttrTriple = (Option<string>, Option<string>, Option<string>)

  /** The three attributes of an anchor. */
  function Attrs(node: Anchor): AttrTriple
    reads node
  {
    (node.href, node.target, node.rel)
  }

  /** The attributes hardening gives an anchor that had `href0`, `target0` and `rel0`. */
  function Hardened(href0: Option<string>, target0: Option<string>, rel0: Option<string>, targetBlank: bool): AttrTriple
  {
    if targetBlank then (HardenedHref(href0), Some("_blank"), Some(HardenedRel(rel0)))
    else (HardenedHref(href0), target0, rel0)
  }

  // ---------------------------------------------------------------- properties

  /** A scheme-shaped prefix ending in ':' is the one the pattern captures. */
  lemma SchemeIsUnique(href: string, k: nat)
    requires k < |href| && IsSchemeName(href[..k]) && href[k] == ':'
    ensures Scheme(href) == Some(href[..k])
  {
    var n := SchemeRun(href);
    assert forall i :: 0 <= i < k ==> IsSchemeChar(href[..k][i]);
    assert !IsSchemeChar(href[k]);
  }

  /** An href with a scheme is unsafe exactly when it has no safe prefix and
      its lower-cased scheme is not one of the safe ones. */
  lemma UnsafeHrefIff(href: string, k: nat)
    requires k < |href| && IsSchemeName(href[..k]) && href[k] == ':'
    ensures UnsafeHref(href) <==> !HasSafePrefix(href) && Downcase(href[..k]) !in SafeSchemes
  {
    SchemeIsUnique(href, k);
  }

  /** Without a scheme an href is never unsafe. */
  lemma NoSchemeIsSafe(href: string)
    requires forall k :: 0 <= k < |href| && href[k] == ':' ==> !IsSchemeName(href[..k])
    ensures !UnsafeHref(href)
  {
  }

  /** An unsafe href starts with a scheme letter, so it is never blank. */
  lemma UnsafeIsPresent(href: string)
    ensures UnsafeHref(href) ==> !Blank(href)
  {
    if UnsafeHref(href) {
      assert IsLetter(href[0]) && !IsUnicodeSpace(href[0]);
    }
  }

  /** Fragment, relative and query links are never unsafe. */
  lemma SafePrefixIsSafe(href: string, i: nat)
    requires i < |SafePrefixes| && StartsWith(href, SafePrefixes[i])
    ensures !UnsafeHref(href)
  {
  }

  lemma {:induction false} AbsentSkips(required: seq<string>, tokens: seq<string>, t: string)
    requires t !in required
    ensures Absent(required, tokens + [t]) == Absent(required, tokens)
  {
    if required != [] {
      AbsentSkips(required[1..], tokens, t);
      assert required[0] in tokens + [t] <==> required[0] in tokens;
    }
  }

  /** Appending keeps the existing tokens in order and adds the missing
      required ones, in order, once each. */
  lemma {:induction false} AddMissingSpec(tokens: seq<string>, required: seq<string>)
    requires NoDuplicates(required)
    ensures AddMissing(tokens, required) == tokens + Absent(required, tokens)
    decreases |required|
  {
    if required != [] {
      var r0 := required[0];
      assert NoDuplicates(required[1..]) by {
        forall i, j | 0 <= i < j < |required[1..]| ensures required[1..][i] != required[1..][j] {
          assert required[1..][i] == required[i + 1] && required[1..][j] == required[j + 1];
        }
      }
      if r0 in tokens {
        AddMissingSpec(tokens, required[1..]);
      } else {
        AddMissingSpec(tokens + [r0], required[1..]);
        AbsentSkips(required[1..], tokens, r0);
      }
    }
  }

  lemma WithRequiredIsAddMissing(tokens: seq<string>)
    ensures WithRequired(tokens) == AddMissing(tokens, RequiredRelTokens)
  {
    var t1 := AppendMissing(tokens, "noopener");
    assert RequiredRelTokens[1..][1..] == [];
    assert AddMissing(tokens, RequiredRelTokens) == AddMissing(t1, RequiredRelTokens[1..]);
  }

  /** Every required token ends up in `rel`, the existing tokens stay first
      and in their order, and nothing else is added. */
  lemma HardenedRelTokens(rel: Option<string>)
    ensures var r := AddMissing(RelTokens(AttrText(rel)), RequiredRelTokens);
      r == RelTokens(AttrText(rel)) + Absent(RequiredRelTokens, RelTokens(AttrText(rel))) &&
      forall t :: t in RequiredRelTokens ==> t in r
  {
    AddMissingSpec(RelTokens(AttrText(rel)), RequiredRelTokens);
  }

  /** Appending the required tokens a second time adds nothing. */
  lemma AddMissingIdempotent(tokens: seq<string>, required: seq<string>)
    requires NoDuplicates(required)
    ensures AddMissing(AddMissing(tokens, required), required) == AddMissing(tokens, required)
  {
    AddMissingSpec(tokens, required);
    var t := AddMissing(tokens, required);
    AddMissingSpec(t, required);
    AbsentWhenAllPresent(required, t);
  }

  lemma AbsentWhenAllPresent(required: seq<string>, tokens: seq<string>)
    requires forall t :: t in required ==> t in tokens
    ensures Absent(required, tokens) == []
  {
  }
}
