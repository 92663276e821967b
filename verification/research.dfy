/** The research handler (`POST /api/research`): it decodes the model's list of posts
    and extends every post with a `scientificClaim` produced by
    `generateScientificClaim`, one model request per post. */
module Research {
  import opened Wrappers
  import opened JsValues
  import opened Extraction
  import opened Http

  /** What `generateScientificClaim` returns whenever its body throws. */
  const Placeholder: Value :=
    Obj(map["content" := Str("Failed to generate scientific claim"), "source" := Str("N/A")])

  const ResearchFailedMessage: string := "Failed to process research request"

  /** The names that hold a value at the logging line of `generateScientificClaim`:
      its parameters, the `message` it has just received, the module's top-level
      bindings and the globals the file uses. `responseText` and `jsonMatch` are
      declared further down and are not yet usable there. */
  const BoundAtLogLine: set<string> := {
    "claimContent", "journals", "message",
    "express", "app", "OpenAI", "cors", "PrismaClient", "prisma", "openai", "generateScientificClaim",
    "require", "console", "JSON", "process", "Promise"
  }

  /** The prompt of `generateScientificClaim` can be built: `${claimContent}` converts
      the content to a string, and `journals.join(", ")` needs an array whose elements
      all convert. */
  predicate PromptBuilds(claimContent: Value, journals: Value) {
    && journals.Arr?
    && !StringConversionThrows(claimContent)
    && !StringConversionThrows(journals)
  }

  /** The body of `generateScientificClaim`, with `loggedName` the variable whose
      reply the logging line prints. The try block builds the prompt, awaits the
      model's `reply`, logs, trims the reply and decodes it; the catch block turns
      every throw into `Placeholder`. */
  function ScientificClaimWith(
    loggedName: string, claimContent: Value, journals: Value, reply: Option<string>,
    parse: string -> Option<Value>): Value
  {
    var attempt: Result<Value, JsError> :=
      if !PromptBuilds(claimContent, journals) then Err(TypeError)  // string conversion or `journals.join`
      else if reply.None? then Err(ProviderFailure)                 // the completion request failed
      else if loggedName !in BoundAtLogLine then Err(ReferenceError)
      else DecodeReply(Trim(reply.value), parse);
    match attempt
    case Ok(v) => v
    case Err(_) => Placeholder
  }

  /** `generateScientificClaim` as written: the logging line reads `openAiResponse`,
      a constant of the research handler that is not visible here, so the body always
      throws a ReferenceError and the function always returns the placeholder. */
  function GenerateScientificClaimAsWritten(
    claimContent: Value, journals: Value, reply: Option<string>, parse: string -> Option<Value>): (r: Value)
    ensures r == Placeholder
  {
    ScientificClaimWith("openAiResponse", claimContent, journals, reply, parse)
  }

  /** `generateScientificClaim` with the logging line reading `message`, the reply it
      has just received: it returns the decoded reply when the prompt builds and the
      trimmed reply decodes, and the placeholder otherwise. It never throws. */
  function GenerateScientificClaim(
    claimContent: Value, journals: Value, reply: Option<string>, parse: string -> Option<Value>): (r: Value)
    ensures PromptBuilds(claimContent, journals) && reply.Some? && Unfenced(Trim(reply.value))
            && parse(Trim(reply.value)).Some? ==>
      r == parse(Trim(reply.value)).value
    ensures PromptBuilds(claimContent, journals) && reply.Some? && !Unfenced(reply.value)
            && parse(ExtractPayload(reply.value)).Some? ==>
      r == parse(ExtractPayload(reply.value)).value
    ensures !PromptBuilds(claimContent, journals) ==> r == Placeholder
    ensures r != Placeholder ==>
      PromptBuilds(claimContent, journals) && reply.Some? && DecodeReply(Trim(reply.value), parse).Ok?
  {
    if reply.Some? then
      DecodeTrimmed(reply.value, parse);
      ScientificClaimWith("message", claimContent, journals, reply, parse)
    else
      ScientificClaimWith("message", claimContent, journals, reply, parse)
  }

  /** The as-written function throws away a reply the corrected one returns: with the
      journals `["Nature"]` and the model answering with a fenced `{}`, the corrected
      function yields the parsed `{}` and the as-written one the placeholder. */
  lemma AsWrittenDiscardsReply()
    ensures
      var parse := (s: string) => if s == "{}" then Some(Obj(map[])) else None;
      var journals := Arr([Str("Nature")]);
      var reply := Some(Opener + "{}" + Closer);
      && GenerateScientificClaim(Str("claim"), journals, reply, parse) == Obj(map[])
      && GenerateScientificClaimAsWritten(Str("claim"), journals, reply, parse) == Placeholder
      && Obj(map[]) != Placeholder
  {
    var parse := (s: string) => if s == "{}" then Some(Obj(map[])) else None;
    var text := Opener + "{}" + Closer;
    assert Absent("{}", Closer);
    FirstFenceWins("{}", []);
    assert text + [] == text;
    assert !Unfenced(text) by {
      assert ExtractPayload(text) != text;
    }
    assert Obj(map[]).fields != Placeholder.fields by {
      assert "content" in Placeholder.fields;
    }
    assert !StringConversionThrows(Arr([Str("Nature")])) by {
      assert forall k :: 0 <= k < 1 ==> [Str("Nature")][k] == Str("Nature");
    }
  }

  /** Even corrected, the function gives up on content that does not convert to a
      string: for a post whose content is `{"toString": 1}` the prompt template throws
      before any request is made, and a reply that would decode is never used. */
  lemma UnconvertibleContentGivesPlaceholder()
    ensures
      var parse := (s: string) => if s == "{}" then Some(Obj(map[])) else None;
      var content := Obj(map["toString" := Num(1.0)]);
      && parse(Trim("{}")) == Some(Obj(map[]))
      && GenerateScientificClaim(content, Arr([Str("Nature")]), Some("{}"), parse) == Placeholder
  {
    var t: string := "{}";
    assert !IsJsWhitespace(t[0]) && !IsJsWhitespace(t[1]);
    assert Trim(t) == t;
  }

  // ---------------------------------------------------------------------------
  // The research handler

  /** `{...post, scientificClaim}`: the fields the spread copies from `post`, with
      `scientificClaim` set to `claim` (replacing a field of that name). */
  ghost predicate Extends(out: Value, post: Value, claim: Value) {
    && out.Obj?
    && "scientificClaim" in out.fields
    && out.fields["scientificClaim"] == claim
    && forall key :: key != "scientificClaim" ==>
         && (key in out.fields <==> key in OwnFields(post))
         && (key in OwnFields(post) ==> out.fields[key] == OwnFields(post)[key])
  }

  /** The object the async mapper resolves to for one post. */
  function Merge(post: Value, claim: Value): Value {
    Obj(OwnFields(post)["scientificClaim" := claim])
  }

  /** The research request succeeds: the model answered, its trimmed reply decodes to
      an array, and no element is null or undefined (reading `post.content` of one
      rejects its mapper, and with it the whole `Promise.all`). */
  predicate ResearchSucceeds(reply: Option<string>, parse: string -> Option<Value>) {
    && reply.Some?
    && DecodeReply(Trim(reply.value), parse).Ok?
    && DecodeReply(Trim(reply.value), parse).value.Arr?
    && forall i :: 0 <= i < |DecodeReply(Trim(reply.value), parse).value.items| ==>
         !IsNullish(DecodeReply(Trim(reply.value), parse).value.items[i])
  }

  /** `POST /api/research` with `reply` the model's text (`None` when the request fails)
      and `claimFor(content, i)` the scientific claim produced for post `i`. The
      concurrent fan-out is modelled as a sequential map; `Promise.all` keeps the
      order. */
  function ResearchWith(reply: Option<string>, parse: string -> Option<Value>, claimFor: (Value, nat) -> Value): (r: Response)
    ensures r.status == 200 || r.status == 500
    ensures r.status == 200 <==> ResearchSucceeds(reply, parse)
    ensures r.status == 500 ==> r.body == Failure(ResearchFailedMessage)
    ensures r.status == 200 ==>
      var posts := DecodeReply(Trim(reply.value), parse).value.items;
      && r.body.Json? && r.body.value.Arr?
      && |r.body.value.items| == |posts|
      && forall i :: 0 <= i < |posts| ==>
           Extends(r.body.value.items[i], posts[i], claimFor(Property(posts[i], "content"), i))
  {
    if reply.None? then Response(500, Failure(ResearchFailedMessage))
    else
      match DecodeReply(Trim(reply.value), parse)
      case Err(_) => Response(500, Failure(ResearchFailedMessage))
      case Ok(parsed) =>
        if !parsed.Arr? then Response(500, Failure(ResearchFailedMessage))   // `posts.map` is not a function
        else if exists i :: 0 <= i < |parsed.items| && IsNullish(parsed.items[i]) then
          Response(500, Failure(ResearchFailedMessage))
        else
          var posts := parsed.items;
          Response(200, Json(Arr(seq(|posts|, i requires 0 <= i < |posts| =>
            Merge(posts[i], claimFor(Property(posts[i], "content"), i))))))
  }

  /** The handler as written: every post that comes back carries the placeholder. */
  function ResearchAsWritten(
    reply: Option<string>, parse: string -> Option<Value>, journals: Value, claimReplies: nat -> Option<string>): (r: Response)
    ensures r.status == 200 <==> ResearchSucceeds(reply, parse)
    ensures r.status == 200 ==>
      var posts := DecodeReply(Trim(reply.value), parse).value.items;
      && r.body.Json? && r.body.value.Arr? && |r.body.value.items| == |posts|
      && forall i :: 0 <= i < |posts| ==> Extends(r.body.value.items[i], posts[i], Placeholder)
  {
    var claimFor := (content: Value, i: nat) => GenerateScientificClaimAsWritten(content, journals, claimReplies(i), parse);
    assert forall content: Value, i: nat :: claimFor(content, i) == Placeholder by {
      forall content: Value, i: nat ensures claimFor(content, i) == Placeholder {
        assert claimFor(content, i) == GenerateScientificClaimAsWritten(content, journals, claimReplies(i), parse);
      }
    }
    ResearchWith(reply, parse, claimFor)
  }

  /** The handler with the corrected `generateScientificClaim`: post `i` carries what
      the corrected function makes of the `i`-th reply. */
  function Research(
    reply: Option<string>, parse: string -> Option<Value>, journals: Value, claimReplies: nat -> Option<string>): (r: Response)
    ensures r.status == 200 <==> ResearchSucceeds(reply, parse)
    ensures r.status == 200 ==>
      var posts := DecodeReply(Trim(reply.value), parse).value.items;
      && r.body.Json? && r.body.value.Arr? && |r.body.value.items| == |posts|
      && forall i :: 0 <= i < |posts| ==>
           Extends(r.body.value.items[i], posts[i],
                   GenerateScientificClaim(Property(posts[i], "content"), journals, claimReplies(i), parse))
  {
    ResearchWith(reply, parse, (content: Value, i: nat) => GenerateScientificClaim(content, journals, claimReplies(i), parse))
  }
}
