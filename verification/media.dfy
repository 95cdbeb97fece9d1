/** Media: which uploads are accepted, how a file is presented when served,
    and who may fetch it. Storage, thumbnails and the size limit's
    floating-point arithmetic are outside the model; the size verdict comes
    in as a boolean. */
module Media {
  import opened Envelope
  import opened Text
  import opened Conversations
  import opened Sharing

  datatype Disposition = Inline | Attachment

  // ---------------------------------------------------------------------------
  // Uploads

  /** Go's filepath.Ext on a '/'-separated path: the text from the last '.'
      of the final path element, or empty when that element has no '.'. */
  function Ext(path: string): (e: string)
    ensures |e| <= |path| && e == path[|path| - |e|..]
    ensures e != [] ==> e[0] == '.' && '.' !in e[1..] && '/' !in e
    ensures e == [] <==> forall j :: 0 <= j < |path| && path[j] == '.' ==> '/' in path[j..]
    decreases |path|
  {
    if path == [] then []
    else
      var last := path[|path| - 1];
      if last == '/' then []
      else if last == '.' then "."
      else
        var e := Ext(path[..|path| - 1]);
        assert forall j :: 0 <= j < |path| - 1 ==> path[j..] == path[..|path| - 1][j..] + [last];
        if e == [] then [] else e + [last]
  }

  /** The extension an upload is judged by (cmd/media.go:65-68): of the
      sanitised name, lower-cased, without its dot. */
  function UploadExtension(sanitizedName: string): (ext: string)
    ensures NoUpper(ext) && '.' !in ext && '/' !in ext
    ensures Ext(sanitizedName) == [] ==> ext == []
    ensures Ext(sanitizedName) != [] ==> ext == ToLower(Ext(sanitizedName)[1..])
  {
    LoweredExtension(Ext(sanitizedName));
    TrimPrefix(ToLower(Ext(sanitizedName)), ".")
  }

  lemma LoweredExtension(e: string)
    requires e != [] ==> e[0] == '.' && '.' !in e[1..] && '/' !in e
    ensures e == [] ==> TrimPrefix(ToLower(e), ".") == []
    ensures e != [] ==> TrimPrefix(ToLower(e), ".") == ToLower(e[1..])
    ensures e != [] ==> '.' !in ToLower(e[1..]) && '/' !in ToLower(e[1..])
  {
    if e != [] {
      assert ToLower(e) == "." + ToLower(e[1..]);
      assert HasPrefix(ToLower(e), ".");
      var t := ToLower(e[1..]);
      forall i | 0 <= i < |t| ensures t[i] != '.' && t[i] != '/' {
        assert e[1..][i] in e[1..];
      }
    }
  }

  /** The allow-list test (cmd/media.go:88-90): "*" admits everything. */
  predicate ExtensionAllowed(allowed: seq<string>, ext: string) {
    "*" in allowed || ext in allowed
  }

  /** handleMediaUpload's checks on the file (cmd/media.go:71-90), in order:
      an empty file is an InputError, one over the size limit a GeneralError,
      one whose extension the allow-list lacks an InputError. */
  function CheckUpload(sanitizedName: string, size: int, tooLarge: bool, allowed: seq<string>): (r: Outcome)
    ensures size == 0 ==> r == Fail(InputError)
    ensures size != 0 && tooLarge ==> r == Fail(GeneralError)
    ensures r.Pass? <==> size != 0 && !tooLarge && ExtensionAllowed(allowed, UploadExtension(sanitizedName))
    ensures r.Fail? && size != 0 && !tooLarge ==> r.kind == InputError
  {
    if size == 0 then Fail(InputError)
    else if tooLarge then Fail(GeneralError)
    else if !ExtensionAllowed(allowed, UploadExtension(sanitizedName)) then Fail(InputError)
    else Pass
  }

  /** The stored disposition of an upload (cmd/media.go:50-55): inline only
      when the first "inline" form value is exactly "true". */
  function UploadDisposition(inlineValues: seq<string>): (d: Disposition)
    ensures d == Inline <==> inlineValues != [] && inlineValues[0] == "true"
  {
    if inlineValues != [] && inlineValues[0] == "true" then Inline else Attachment
  }

  /** The allow-list is matched case-insensitively on the file's side: two
      names whose extensions differ only in letter case get the same verdict,
      so "report.PDF" passes wherever "report.pdf" does. */
  lemma ExtensionCaseIgnored(n1: string, n2: string, size: int, tooLarge: bool, allowed: seq<string>)
    requires ToLower(Ext(n1)) == ToLower(Ext(n2))
    ensures UploadExtension(n1) == UploadExtension(n2)
    ensures CheckUpload(n1, size, tooLarge, allowed) == CheckUpload(n2, size, tooLarge, allowed)
  {
  }

  /** A file without an extension passes only a wildcard list or a list that
      admits the empty extension. */
  lemma NoExtensionNeedsWildcard(name: string, allowed: seq<string>)
    requires '.' !in name
    ensures CheckUpload(name, 1, false, allowed).Pass? <==> "*" in allowed || "" in allowed
  {
  }

  // ---------------------------------------------------------------------------
  // Serving

  /** The media row as serving reads it; a null model reads as "". */
  datatype MediaRecord = MediaRecord(uuid: string, model: string, modelID: int, contentType: string, filename: string)

  const MessagesModel: string := "messages"

  /** serveMediaFile's disposition (cmd/media.go:240-248). */
  function ServeDisposition(contentType: string): (d: Disposition)
    ensures d == Inline <==>
      HasPrefix(contentType, "image/") || HasPrefix(contentType, "video/") || contentType == "application/pdf"
  {
    if HasPrefix(contentType, "image/") || HasPrefix(contentType, "video/") || contentType == "application/pdf"
    then Inline else Attachment
  }

  /** The key a media uuid is looked up by (cmd/media.go:266-268): a
      thumbnail's uuid is the original's with the thumbnail prefix in front. */
  function MediaKey(uuid: string, thumbPrefix: string): (key: string)
    ensures HasPrefix(uuid, thumbPrefix) ==> uuid == thumbPrefix + key
    ensures !HasPrefix(uuid, thumbPrefix) ==> key == uuid
  {
    TrimPrefix(uuid, thumbPrefix)
  }

  /** A thumbnail and its original resolve to the same record. */
  lemma ThumbnailResolvesToOriginal(uuid: string, thumbPrefix: string)
    requires !HasPrefix(uuid, thumbPrefix)
    ensures MediaKey(thumbPrefix + uuid, thumbPrefix) == MediaKey(uuid, thumbPrefix) == uuid
  {
    assert (thumbPrefix + uuid)[..|thumbPrefix|] == thumbPrefix;
    assert (thumbPrefix + uuid)[|thumbPrefix|..] == uuid;
  }

  /** How the request was authenticated and who made it. */
  datatype Requester = SignedURL | ContactSession(contactID: int) | AgentSession(userID: int)

  /** `app.authz.EnforceMediaAccess`, uninterpreted like the conversation
      decision. */
  type MediaAuthz = (Agent, string) -> Result<bool>

  /** What the serving handler consults; `media` is the lookup by MediaKey. */
  datatype ServeEnv = ServeEnv(
    media: Result<MediaRecord>,
    conversationOfMessage: Result<Conversation>,
    membership: Result<Option<Membership>>,
    agent: Result<Agent>,
    mediaAuthz: MediaAuthz,
    conversationAuthz: ConversationAuthz)

  /** The final decision for an agent (cmd/media.go:207-221): for a message
      attachment the conversation decision on the message's conversation,
      otherwise the media decision. */
  function AgentDecision(env: ServeEnv): Result<bool>
    requires env.agent.Ok? && env.media.Ok?
  {
    if env.media.value.model == MessagesModel then
      match env.conversationOfMessage
      case Err(k) => Err(k)
      case Ok(conv) => env.conversationAuthz(env.agent.value, conv)
    else env.mediaAuthz(env.agent.value, env.media.value.model)
  }

  /** handleServeMedia (cmd/media.go:154-224): the record served, or why not. */
  function ServeMedia(who: Requester, env: ServeEnv): (r: Result<MediaRecord>)
    // A signed URL is served without any permission check.
    ensures who.SignedURL? ==> r == env.media
    // Contacts get message attachments of conversations they can see, nothing else.
    ensures who.ContactSession? ==> (r.Ok? <==>
      && env.media.Ok? && env.media.value.model == MessagesModel
      && env.conversationOfMessage.Ok? && env.membership.Ok?
      && ContactCanAccess(env.conversationOfMessage.value, who.contactID,
                          PortalContactOrgID(env.membership).value))
    ensures who.ContactSession? && env.media.Ok? && env.media.value.model != MessagesModel ==>
      r == Err(PermissionError)
    // Agents: for message attachments the conversation decision replaces the media decision.
    ensures who.AgentSession? ==> (r.Ok? <==>
      && env.agent.Ok? && env.media.Ok?
      && env.mediaAuthz(env.agent.value, env.media.value.model).Ok?
      && AgentDecision(env) == Ok(true))
    ensures who.AgentSession? && env.agent.Ok? && env.media.Ok?
      && env.mediaAuthz(env.agent.value, env.media.value.model).Ok?
      ==> && (AgentDecision(env) == Ok(false) ==> r == Err(UnauthorizedError))
          && (AgentDecision(env).Err? ==> r == Err(AgentDecision(env).kind))
    ensures r.Ok? ==> env.media.Ok? && r.value == env.media.value
  {
    match who
    case SignedURL => env.media
    case ContactSession(contactID) =>
      var media :- env.media;
      if media.model != MessagesModel then Err(PermissionError)
      else
        var conv :- env.conversationOfMessage;
        var orgID :- PortalContactOrgID(env.membership);
        if !ContactCanAccess(conv, contactID, orgID) then Err(PermissionError) else Ok(media)
    case AgentSession(_) =>
      var agent :- env.agent;
      var media :- env.media;
      var mediaAllowed :- env.mediaAuthz(agent, media.model);
      var allowed :-
        if media.model == MessagesModel then
          match env.conversationOfMessage
          case Err(k) => Err(k)
          case Ok(conv) => env.conversationAuthz(agent, conv)
        else Ok(mediaAllowed);
      if !allowed then Err(UnauthorizedError) else Ok(media)
  }

  /** For a message attachment the media decision matters only by failing:
      whatever it allows or denies, the conversation decision is final. */
  lemma ConversationDecisionOverridesMedia(userID: int, env: ServeEnv, other: MediaAuthz)
    requires env.agent.Ok? && env.media.Ok? && env.media.value.model == MessagesModel
    requires env.mediaAuthz(env.agent.value, MessagesModel).Ok?
    requires other(env.agent.value, MessagesModel).Ok?
    ensures ServeMedia(AgentSession(userID), env) == ServeMedia(AgentSession(userID), env.(mediaAuthz := other))
  {
  }

  /** The owner of a conversation can always fetch its message attachments
      through the portal, whatever their organisation state. */
  lemma OwnerFetchesOwnAttachments(env: ServeEnv)
    requires env.media.Ok? && env.media.value.model == MessagesModel
    requires env.conversationOfMessage.Ok? && env.membership.Ok?
    ensures ServeMedia(ContactSession(env.conversationOfMessage.value.contactID), env) == env.media
  {
  }
}
