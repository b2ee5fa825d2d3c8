/** `Api::ArtifactTriggersController#fire`: an external system fires a
    trigger with the trigger's secret, given as an `Authorization: Bearer`
    header or a `token` parameter. A missing trigger is 404, a wrong token
    401 with nothing enqueued, a run that raises 422, and a queued run
    answers with the new message's id and the trigger's artifact and chat.
    Looking the trigger up is a parameter (null when it does not exist), as
    are its `api_token`, `artifact_id` and `chat_id` columns. */
module ArtifactTriggersApi {
  import opened Wrappers
  import opened Text
  import opened Values
  import opened Jobs
  import opened ArtifactTriggers

  // ---------------------------------------------------------------- header

  /** `header.split(" ", 2)`: leading whitespace is skipped, the first
      field runs to the next whitespace, and the second field is what
      follows the whitespace after it (empty when only whitespace
      follows). */
  function SplitScheme(header: string): (r: seq<string>)
    ensures |r| <= 2
    ensures header != [] ==> |r| >= 1
  {
    if header == [] then []
    else
      var t := DropSpaces(header);
      var w := TakeWord(t);
      var rest := t[|w|..];
      if rest == [] then [w] else [w, DropSpaces(rest)]
  }

  /** `a.casecmp(b).zero?`: equal once ASCII letters are lower-cased. */
  predicate CaseEqual(a: string, b: string) {
    Downcase(a) == Downcase(b)
  }

  /** `bearer_token`: the second field of a non-blank header whose first
      field is "bearer" in any case, else "". */
  function BearerToken(header: string): string {
    if Blank(header) then ""
    else
      var parts := SplitScheme(header);
      if |parts| != 2 then ""
      else if !CaseEqual(parts[0], "bearer") then ""
      else parts[1]
  }

  // ---------------------------------------------------------------- token

  /** `ActiveSupport::SecurityUtils.secure_compare`: the two byte strings
      are equal. The comparison's constant running time is not modelled. */
  predicate SecureCompare(a: string, b: string) {
    a == b
  }

  /** `valid_token?`: neither token blank, the same byte length, and equal. */
  function ValidToken(provided: string, expected: string): (r: bool)
    ensures r <==> !Blank(provided) && provided == expected
  {
    if Blank(provided) || Blank(expected) then false
    else if ByteSize(provided) != ByteSize(expected) then false
    else SecureCompare(provided, expected)
  }

  /** Ruby `a || b`. */
  function Or(a: Value, b: Value): (r: Value)
    ensures Truthy(a) ==> r == a
    ensures !Truthy(a) ==> r == b
  {
    if Truthy(a) then a else b
  }

  /** `bearer_token || params[:token].to_s`, as written. */
  function ProvidedAsWritten(header: string, tokenParam: Value, inspect: Value -> string): string {
    ToS(Or(Str(BearerToken(header)), Str(ToS(tokenParam, inspect))), inspect)
  }

  /** The token the action checks, with the `token` parameter used when no
      bearer token is given (`bearer_token.presence || params[:token].to_s`). */
  function Provided(header: string, tokenParam: Value, inspect: Value -> string): (r: string)
    ensures !Blank(BearerToken(header)) ==> r == BearerToken(header)
    ensures Blank(BearerToken(header)) ==> r == ToS(tokenParam, inspect)
  {
    var bearer := BearerToken(header);
    if Blank(bearer) then ToS(tokenParam, inspect) else bearer
  }

  // ---------------------------------------------------------------- action

  /** The JSON answer of the action, with its HTTP status. */
  datatype Response =
    | Queued(userMessageId: int, artifactId: int, chatId: int)
    | Unauthorized
    | NotFound
    | Unprocessable(error: string)

  function Status(r: Response): int {
    match r
    case Queued(_, _, _) => 200
    case Unauthorized => 401
    case NotFound => 404
    case Unprocessable(_) => 422
  }

  /** `fire`. `trigger` is the record found for the id (null when there is
      none); the request's header and parameters, the new message's id and
      the clock are parameters. The token is checked as the action computes
      it, so only the bearer token counts (`QueryTokenIgnored`). */
  method Fire(trigger: ArtifactTrigger?, apiToken: string, artifactId: int, chatId: int,
              header: string, tokenParam: Value, inputText: Value, turnsArg: Value, maxCharsArg: Value,
              latestInstruction: Option<string>, newId: int, now: int,
              strToI: string -> int, inspect: Value -> string, jobs: JobQueue) returns (resp: Response)
    modifies trigger, jobs
    ensures trigger == null ==> resp == NotFound && jobs.enqueued == old(jobs.enqueued)
    ensures trigger != null && !ValidToken(BearerToken(header), apiToken) ==>
      resp == Unauthorized && trigger.columns == old(trigger.columns) && jobs.enqueued == old(jobs.enqueued)
    ensures trigger != null && ValidToken(BearerToken(header), apiToken) ==>
      var q := QueuedFor(old(trigger.columns), Some(ToS(inputText, inspect)), Some(old(trigger.columns).createdById),
                         turnsArg, maxCharsArg, Some("api"), latestInstruction, newId, strToI);
      (q.Ok? ==> resp == Queued(newId, artifactId, chatId) && trigger.columns == Fired(old(trigger.columns), now) &&
                 jobs.enqueued == old(jobs.enqueued) + [newId]) &&
      (q.Err? ==> resp == Unprocessable(q.error) && trigger.columns == old(trigger.columns) &&
                  jobs.enqueued == old(jobs.enqueued))
  {
    if trigger == null {
      return NotFound;
    }
    var provided := ProvidedAsWritten(header, tokenParam, inspect);
    QueryTokenIgnored(header, tokenParam, inspect);
    if !ValidToken(provided, apiToken) {
      return Unauthorized;
    }
    var run := trigger.EnqueueRun(Some(ToS(inputText, inspect)), Some(trigger.columns.createdById), turnsArg, maxCharsArg,
                                  Some("api"), latestInstruction, newId, now, strToI, jobs);
    match run
    case Ok(message) => resp := Queued(message.id, artifactId, chatId);
    case Err(e) => resp := Unprocessable(e);
  }

  // ---------------------------------------------------------------- properties

  /** `lead + scheme + gap + token`, with a "bearer" scheme in any case and
      whitespace around it, yields exactly the token. */
  lemma BearerTokenOf(lead: string, scheme: string, gap: string, token: string)
    requires forall k :: 0 <= k < |lead| ==> IsRegexSpace(lead[k])
    requires CaseEqual(scheme, "bearer")
    requires gap != [] && forall k :: 0 <= k < |gap| ==> IsRegexSpace(gap[k])
    requires token == [] || !IsRegexSpace(token[0])
    ensures BearerToken(lead + scheme + gap + token) == token
  {
    BearerSchemeIsWord(scheme);
    var h := lead + scheme + gap + token;
    assert !Blank(h) by {
      assert h[|lead|] == scheme[0];
    }
    SplitOfWord(lead, scheme, gap, token);
  }

  /** A scheme equal to "bearer" up to case is six letters. */
  lemma BearerSchemeIsWord(scheme: string)
    requires CaseEqual(scheme, "bearer")
    ensures scheme != [] && IsLetter(scheme[0])
    ensures forall k :: 0 <= k < |scheme| ==> !IsRegexSpace(scheme[k])
  {
    assert |Downcase(scheme)| == |scheme|;
    forall k | 0 <= k < |scheme| ensures IsLetter(scheme[k]) {
      assert Lower(scheme[k]) == "bearer"[k];
    }
  }

  /** With whitespace around a word, the header splits into the word and
      the rest. */
  lemma SplitOfWord(lead: string, w: string, gap: string, token: string)
    requires forall k :: 0 <= k < |lead| ==> IsRegexSpace(lead[k])
    requires w != [] && forall k :: 0 <= k < |w| ==> !IsRegexSpace(w[k])
    requires gap != [] && forall k :: 0 <= k < |gap| ==> IsRegexSpace(gap[k])
    requires token == [] || !IsRegexSpace(token[0])
    ensures SplitScheme(lead + w + gap + token) == [w, token]
  {
    var h := lead + w + gap + token;
    assert h[|lead|] == w[0];
    DropSpacesOver(lead, w + gap + token);
    assert h == lead + (w + gap + token);
    var t := w + gap + token;
    assert DropSpaces(h) == t;
    TakeWordOf(w, gap + token);
    assert t == w + (gap + token);
    assert TakeWord(t) == w;
    assert t[|w|..] == gap + token;
    DropSpacesOver(gap, token);
    DropSpacesStops(token);
  }

  lemma {:induction false} DropSpacesOver(lead: string, s: string)
    requires forall k :: 0 <= k < |lead| ==> IsRegexSpace(lead[k])
    ensures DropSpaces(lead + s) == DropSpaces(s)
  {
    if lead != [] {
      assert (lead + s)[0] == lead[0];
      assert (lead + s)[1..] == lead[1..] + s;
      DropSpacesOver(lead[1..], s);
    } else {
      assert lead + s == s;
    }
  }

  lemma DropSpacesStops(s: string)
    requires s == [] || !IsRegexSpace(s[0])
    ensures DropSpaces(s) == s
  {
  }

  lemma {:induction false} TakeWordOf(w: string, s: string)
    requires forall k :: 0 <= k < |w| ==> !IsRegexSpace(w[k])
    requires s == [] || IsRegexSpace(s[0])
    ensures TakeWord(w + s) == w
  {
    if w == [] {
      assert w + s == s;
    } else {
      assert (w + s)[1..] == w[1..] + s;
      TakeWordOf(w[1..], s);
    }
  }

  /** Any other scheme ("Basic ...") gives no token. */
  lemma OtherSchemeNoToken(scheme: string, gap: string, token: string)
    requires scheme != [] && forall k :: 0 <= k < |scheme| ==> !IsRegexSpace(scheme[k])
    requires !CaseEqual(scheme, "bearer")
    requires gap != [] && forall k :: 0 <= k < |gap| ==> IsRegexSpace(gap[k])
    ensures BearerToken(scheme + gap + token) == ""
  {
    var h := scheme + gap + token;
    if !Blank(h) {
      assert !IsRegexSpace(h[0]);
      assert DropSpaces(h) == h;
      assert h == scheme + (gap + token);
      TakeWordOf(scheme, gap + token);
    }
  }

  /** A header of a single word (a bare token) gives no token. */
  lemma SingleWordNoToken(w: string)
    requires forall k :: 0 <= k < |w| ==> !IsRegexSpace(w[k])
    ensures BearerToken(w) == ""
  {
    if !Blank(w) {
      assert w != [] && !IsRegexSpace(w[0]);
      assert DropSpaces(w) == w;
      TakeWordOf(w, "");
      assert w + "" == w;
    }
  }

  /** As written, the `token` parameter is never used: `bearer_token`
      always returns a String, and any String is truthy in Ruby. */
  lemma QueryTokenIgnored(header: string, tokenParam: Value, inspect: Value -> string)
    ensures ProvidedAsWritten(header, tokenParam, inspect) == BearerToken(header)
  {
  }

  /** As written, a request with no Authorization header and the right
      `token` parameter is refused. */
  lemma QueryTokenRefusedAsWritten(apiToken: string, inspect: Value -> string)
    ensures !ValidToken(ProvidedAsWritten("", Str(apiToken), inspect), apiToken)
  {
    QueryTokenIgnored("", Str(apiToken), inspect);
  }

  /** With the fallback applied, the same request is accepted whenever the
      trigger has a token. */
  lemma QueryTokenAccepted(apiToken: string, inspect: Value -> string)
    requires !Blank(apiToken)
    ensures ValidToken(Provided("", Str(apiToken), inspect), apiToken)
  {
    assert BearerToken("") == "";
  }
}
