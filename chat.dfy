/** The predicates of the `Chat` model: whether its title still counts as
    untitled, whether a title may be generated for it, whether it is an
    untouched chat a new one may reuse, whether context suggestions are on,
    and its inbound e-mail address. */
module Chats {
  import opened Wrappers
  import opened Text

  const UntitledTitles: seq<string> := ["untitled", "untitled chat"]

  /** The columns and associations the predicates read.
      `contextSuggestionsEnabled` is None when the column does not exist and
      Some(None) when it holds nil; `inboundEmailToken` likewise. */
  datatype Chat = Chat(
    title: Option<string>, titleSetByUser: bool, hasUserMessages: bool, hasArtifacts: bool,
    contextSuggestionsEnabled: Option<Option<bool>>, inboundEmailToken: Option<Option<string>>)

  function NormalizedTitle(title: Option<string>): string {
    Downcase(Strip(title.GetOr("")))
  }

  /** `title_effectively_untitled?`. */
  predicate TitleEffectivelyUntitled(c: Chat) {
    var normalized := NormalizedTitle(c.title);
    Blank(normalized) || normalized in UntitledTitles
  }

  /** `can_auto_generate_title?`: not locked by the user, and untitled. */
  function CanAutoGenerateTitle(c: Chat): (r: bool)
    ensures r <==> !c.titleSetByUser && TitleEffectivelyUntitled(c)
  {
    if c.titleSetByUser then false else TitleEffectivelyUntitled(c)
  }

  /** `untouched_for_new_chat?`. */
  function UntouchedForNewChat(c: Chat): (r: bool)
    ensures r <==> !c.titleSetByUser && TitleEffectivelyUntitled(c) && !c.hasUserMessages && !c.hasArtifacts
  {
    if c.titleSetByUser then false
    else if !TitleEffectivelyUntitled(c) then false
    else if c.hasUserMessages then false
    else if c.hasArtifacts then false
    else true
  }

  /** `context_suggestions_enabled?`: on unless the column holds false. */
  function ContextSuggestionsEnabled(c: Chat): (r: bool)
    ensures !r <==> c.contextSuggestionsEnabled == Some(Some(false))
  {
    if c.contextSuggestionsEnabled.None? then true
    else c.contextSuggestionsEnabled.value != Some(false)
  }

  /** `inbound_email_id`: the token when the column exists and is not blank. */
  function InboundEmailId(c: Chat): (r: Option<string>)
    ensures r.Some? <==> c.inboundEmailToken.Some? && !Blank(c.inboundEmailToken.value.GetOr(""))
    ensures r.Some? ==> r.value == c.inboundEmailToken.value.value
  {
    if c.inboundEmailToken.None? then None
    else
      var token := c.inboundEmailToken.value.GetOr("");
      if Blank(token) then None else Some(token)
  }

  /** `inbound_email_address`, given `ENV["CHAT_INBOUND_EMAIL_DOMAIN"]`: the
      bare token without a domain, else token@domain. */
  function InboundEmailAddress(c: Chat, domainEnv: Option<string>): (r: Option<string>)
    ensures r.Some? <==> InboundEmailId(c).Some?
    ensures r.Some? && Blank(Strip(domainEnv.GetOr(""))) ==> r == InboundEmailId(c)
    ensures r.Some? && !Blank(Strip(domainEnv.GetOr(""))) ==>
      r.value == InboundEmailId(c).value + "@" + Strip(domainEnv.GetOr(""))
  {
    var token := InboundEmailId(c);
    if token.None? then None
    else
      var domain := Strip(domainEnv.GetOr(""));
      if Blank(domain) then token else Some(token.value + "@" + domain)
  }

  // ---------------------------------------------------------------- properties

  /** A chat that may be reused for a new one may also have its title
      generated. */
  lemma UntouchedCanAutoGenerate(c: Chat)
    requires UntouchedForNewChat(c)
    ensures CanAutoGenerateTitle(c)
  {
  }

  /** The untitled test ignores case: an upper-cased title is untitled
      exactly when the title is. */
  lemma UntitledIgnoresCase(c: Chat)
    requires c.title.Some?
    ensures TitleEffectivelyUntitled(c.(title := Some(Upcase(c.title.value)))) <==> TitleEffectivelyUntitled(c)
  {
    var t := c.title.value;
    StripDowncase(t);
    StripDowncase(Upcase(t));
    DowncaseOfUpcase(t);
  }

  /** Surrounding whitespace does not matter either: padding a title with
      spaces leaves the test unchanged. */
  lemma UntitledIgnoresPadding(c: Chat)
    requires c.title.Some?
    ensures TitleEffectivelyUntitled(c.(title := Some(" " + c.title.value + " "))) <==> TitleEffectivelyUntitled(c)
  {
    var t := c.title.value;
    PaddedStrip(t);
  }

  lemma PaddedStrip(t: string)
    ensures Strip(" " + t + " ") == Strip(t)
  {
    var p := " " + t + " ";
    assert p[..|p| - 1] == " " + t;
    assert RStrip(p) == RStrip(" " + t);
    RStripPrefixed(t);
    assert (" " + RStrip(t))[1..] == RStrip(t);
    assert LStrip(" " + RStrip(t)) == LStrip(RStrip(t));
  }

  lemma {:induction false} RStripPrefixed(t: string)
    ensures RStrip(" " + t) == (if RStrip(t) == [] then [] else " " + RStrip(t))
    decreases |t|
  {
    var p := " " + t;
    if |t| > 0 && IsStripSpace(t[|t| - 1]) {
      assert p[..|p| - 1] == " " + t[..|t| - 1];
      RStripPrefixed(t[..|t| - 1]);
    } else if |t| == 0 {
      assert p == " ";
      assert p[..0] == [];
    }
  }
}
