/**
 * The client's utilities (client/src/utils/index.ts): `classNames`, the
 * chat-list metadata, and `requestHandler`, which runs one API call and
 * reports its outcome through callbacks, toggling a loading flag around it
 * and dropping the session on an authentication failure.
 */
module ClientUtils {
  import opened Prelude

  // ---- classNames ----

  /** `className.filter(Boolean)`: the non-empty names, in order. */
  function NonEmpty(names: seq<string>): (kept: seq<string>)
    ensures |kept| <= |names|
    ensures forall i :: 0 <= i < |kept| ==> kept[i] != "" && kept[i] in names
    ensures forall i :: 0 <= i < |names| && names[i] != "" ==> names[i] in kept
    decreases |names|
  {
    if |names| == 0 then []
    else if names[0] == "" then NonEmpty(names[1..])
    else [names[0]] + NonEmpty(names[1..])
  }

  /** `classNames(...names)`: the non-empty names joined by single spaces. */
  function ClassNames(names: seq<string>): string {
    Join(NonEmpty(names), " ")
  }

  /** A join is empty only when there is nothing, or only one empty part, to join. */
  lemma {:induction false} JoinEmpty(parts: seq<string>, sep: string)
    requires sep != ""
    ensures Join(parts, sep) == "" <==> |parts| == 0 || (|parts| == 1 && parts[0] == "")
    decreases |parts|
  {
    if |parts| > 1 {
      assert |Join(parts, sep)| >= |sep|;
    }
  }

  /** `classNames` gives "" exactly when every name is empty. */
  lemma ClassNamesEmpty(names: seq<string>)
    ensures ClassNames(names) == "" <==> forall i :: 0 <= i < |names| ==> names[i] == ""
  {
    var kept := NonEmpty(names);
    JoinEmpty(kept, " ");
    if exists i :: 0 <= i < |names| && names[i] != "" {
      var i :| 0 <= i < |names| && names[i] != "";
      assert names[i] in kept;
      assert |kept| > 0 && kept[0] != "";
    }
  }

  /**
   * When no name holds a space, splitting the result on spaces gives back
   * exactly the non-empty names, in order: nothing is merged or lost.
   */
  lemma ClassNamesSplit(names: seq<string>)
    requires forall i :: 0 <= i < |names| ==> ' ' !in names[i]
    requires exists i :: 0 <= i < |names| && names[i] != ""
    ensures SplitOn(ClassNames(names), ' ') == NonEmpty(names)
  {
    var kept := NonEmpty(names);
    var i :| 0 <= i < |names| && names[i] != "";
    assert names[i] in kept;
    forall k | 0 <= k < |kept| ensures ' ' !in kept[k] {
      var j :| 0 <= j < |names| && names[j] == kept[k];
    }
    SplitJoin(kept, ' ');
  }

  // ---- getChatObjectMetadata ----

  datatype Participant = Participant(id: string, username: string, email: string, avatarUrl: string)

  /** The chat's last message: its text, how many attachments it has, and its sender's username if any. */
  datatype ChatMessage = ChatMessage(content: string, attachmentCount: nat, sender: Option<string>)

  datatype Chat = Chat(isGroupChat: bool, name: string, participants: seq<Participant>,
                       lastMessage: Option<ChatMessage>)

  /** What the chat list shows; `None` is JavaScript's `undefined`. */
  datatype ChatMetadata = ChatMetadata(avatar: Option<string>, title: Option<string>,
                                       description: Option<string>, lastMessage: string)

  const GROUP_AVATAR := "https://via.placeholder.com/100x100.png"

  /**
   * The last-message line: the content when it is not empty; for a message
   * with no text, how many attachments it carries; with no message at all,
   * "No messages yet".
   */
  function LastMessageText(m: Option<ChatMessage>): (t: string)
    ensures m.Some? && m.value.content != "" ==> t == m.value.content
    ensures m.None? ==> t == "No messages yet"
  {
    if m.Some? && m.value.content != "" then m.value.content
    else if m.Some? then
      NatToString(m.value.attachmentCount) + " attachment" + (if m.value.attachmentCount > 1 then "s" else "")
    else "No messages yet"
  }

  /** The attachment count is written out, and pluralised exactly when it exceeds one. */
  lemma AttachmentWording(m: ChatMessage)
    requires m.content == ""
    ensures var t := LastMessageText(Some(m));
      var digits := NatToString(m.attachmentCount);
      && t[..|digits|] == digits
      && t[|digits|..|digits| + 11] == " attachment"
      && (t[|t| - 1] == 's' <==> m.attachmentCount > 1)
  {
  }

  /**
   * `participants.find(p => p._id !== loggedInUser?._id)`: the first
   * participant whose id is not the signed-in user's (with nobody signed in,
   * the first participant).
   */
  function OtherParticipant(participants: seq<Participant>, me: Option<string>): (p: Option<Participant>)
    ensures p.None? <==> forall k :: 0 <= k < |participants| ==> me.Some? && participants[k].id == me.value
    ensures p.Some? ==> exists k :: 0 <= k < |participants| && participants[k] == p.value &&
                          (me.None? || p.value.id != me.value) &&
                          forall j :: 0 <= j < k ==> me.Some? && participants[j].id == me.value
    decreases |participants|
  {
    if |participants| == 0 then None
    else if me.None? || participants[0].id != me.value then Some(participants[0])
    else
      var rest := OtherParticipant(participants[1..], me);
      if rest.Some? then
        var k :| 0 <= k < |participants[1..]| && participants[1..][k] == rest.value &&
                 (me.None? || rest.value.id != me.value) &&
                 forall j :: 0 <= j < k ==> me.Some? && participants[1..][j].id == me.value;
        assert participants[k + 1] == rest.value;
        rest
      else rest
  }

  function GetChatObjectMetadata(chat: Chat, me: Option<string>): (md: ChatMetadata)
    ensures chat.isGroupChat ==>
      && md.avatar == Some(GROUP_AVATAR) && md.title == Some(chat.name)
      && md.description == Some(NatToString(|chat.participants|) + " members in the chat")
    ensures !chat.isGroupChat ==> md.lastMessage == LastMessageText(chat.lastMessage)
    ensures !chat.isGroupChat && OtherParticipant(chat.participants, me).None? ==>
      md.avatar.None? && md.title.None? && md.description.None?
  {
    var text := LastMessageText(chat.lastMessage);
    if chat.isGroupChat then
      ChatMetadata(Some(GROUP_AVATAR), Some(chat.name),
                   Some(NatToString(|chat.participants|) + " members in the chat"),
                   if chat.lastMessage.Some? then Interpolate(chat.lastMessage.value.sender) + ": " + text else text)
    else
      match OtherParticipant(chat.participants, me)
      case None => ChatMetadata(None, None, None, text)
      case Some(p) => ChatMetadata(Some(p.avatarUrl), Some(p.username), Some(p.email), text)
  }

  /** A group chat prefixes the sender only when there is a message. */
  lemma GroupLastMessage(chat: Chat, me: Option<string>)
    requires chat.isGroupChat
    ensures chat.lastMessage.None? ==> GetChatObjectMetadata(chat, me).lastMessage == "No messages yet"
    ensures chat.lastMessage.Some? ==>
      GetChatObjectMetadata(chat, me).lastMessage ==
        Interpolate(chat.lastMessage.value.sender) + ": " + LastMessageText(chat.lastMessage)
  {
  }

  /**
   * In a one-to-one chat whose participants are the signed-in user and one
   * other person, in either order, the entry shows the other person.
   */
  lemma OneToOneShowsOther(chat: Chat, me: Participant, other: Participant)
    requires !chat.isGroupChat && me.id != other.id
    requires chat.participants == [me, other] || chat.participants == [other, me]
    ensures var md := GetChatObjectMetadata(chat, Some(me.id));
      md.title == Some(other.username) && md.description == Some(other.email) && md.avatar == Some(other.avatarUrl)
  {
    var p := OtherParticipant(chat.participants, Some(me.id));
    assert p.Some? by {
      assert chat.participants[0].id != me.id || chat.participants[1].id != me.id;
    }
  }

  // ---- requestHandler ----

  /** The JSON body of an answer; `status` is `status: boolean | 204` reduced to its truthiness. */
  datatype ResponseBody = ResponseBody(status: bool, statusCode: Option<int>, message: Option<string>)

  /** The `response` of a failed axios call, whose `data` may be missing. */
  datatype ErrorResponse = ErrorResponse(data: Option<ResponseBody>)

  /** What `api()` throws. */
  datatype Thrown =
    | AxiosError(message: string, response: Option<ErrorResponse>)
    | PlainError(message: string)
    | NonError

  /** How `api()` settles: resolved with a response, or rejected. */
  datatype ApiCall =
    | Answered(httpStatus: int, data: Option<ResponseBody>)
    | Rejected(error: Thrown)

  /** What the handler does that the page can observe, in order. */
  datatype Event =
    | Loading(on: bool)
    | SuccessCallback(data: Option<ResponseBody>)
    | ErrorCallback(message: string)
    | StorageCleared
    | Redirected(path: string)

  const FALLBACK_MESSAGE := "Something went wrong!"

  /** `data?.status || response.status == 204` */
  predicate Succeeded(call: ApiCall) {
    call.Answered? && ((call.data.Some? && call.data.value.status) || call.httpStatus == 204)
  }

  /** A rejected call whose error body carries `statusCode` 401 or 403. */
  predicate AuthFailure(call: ApiCall) {
    && call.Rejected? && call.error.AxiosError? && call.error.response.Some?
    && call.error.response.value.data.Some?
    && call.error.response.value.data.value.statusCode in {Some(401), Some(403)}
  }

  function MessageOf(body: Option<ResponseBody>): Option<string> {
    if body.Some? then body.value.message else None
  }

  /**
   * The message `onError` receives: the server's message when there is one,
   * else the thrown error's message, else "Something went wrong!".
   */
  function ErrorMessage(call: ApiCall): string
    requires !Succeeded(call)
  {
    match call
    case Answered(_, data) =>
      // the handler throws `new Error(data?.message || FALLBACK_MESSAGE)` and catches it
      if Truthy(MessageOf(data)) then MessageOf(data).value else FALLBACK_MESSAGE
    case Rejected(AxiosError(m, response)) =>
      if response.Some? && Truthy(MessageOf(response.value.data)) then MessageOf(response.value.data).value else m
    case Rejected(PlainError(m)) => m
    case Rejected(NonError) => FALLBACK_MESSAGE
  }

  /** On an authentication failure: storage is cleared, then, in a browser, the page goes to /login. */
  function LogoutEvents(call: ApiCall, isBrowser: bool): seq<Event> {
    if AuthFailure(call) then [StorageCleared] + (if isBrowser then [Redirected("/login")] else []) else []
  }

  /** The events one run of `requestHandler` produces. */
  function Trace(call: ApiCall, hasSetLoading: bool, isBrowser: bool): seq<Event> {
    var on := if hasSetLoading then [Loading(true)] else [];
    var off := if hasSetLoading then [Loading(false)] else [];
    on + Settled(call, isBrowser) + off
  }

  /** The events between the two `setLoading` calls: `onSuccess`, or the logout and `onError`. */
  function Settled(call: ApiCall, isBrowser: bool): seq<Event> {
    if Succeeded(call) then [SuccessCallback(call.data)]
    else LogoutEvents(call, isBrowser) + [ErrorCallback(ErrorMessage(call))]
  }

  /** The page state `requestHandler` touches: local storage, the location, and what it has observed. */
  class Page {
    var storage: map<string, string>
    var location: string
    var events: seq<Event>

    constructor(storage: map<string, string>, location: string)
      ensures this.storage == storage && this.location == location && events == []
    {
      this.storage := storage;
      this.location := location;
      events := [];
    }

    method SetLoading(on: bool)
      modifies this
      ensures events == old(events) + [Loading(on)] && storage == old(storage) && location == old(location)
    {
      events := events + [Loading(on)];
    }

    /** `requestHandler(api, setLoading, onSuccess, onError)` for one settled call. */
    method RequestHandler(call: ApiCall, hasSetLoading: bool, isBrowser: bool)
      modifies this
      ensures events == old(events) + Trace(call, hasSetLoading, isBrowser)
      ensures storage == if AuthFailure(call) then map[] else old(storage)
      ensures location == if AuthFailure(call) && isBrowser then "/login" else old(location)
    {
      if hasSetLoading {
        SetLoading(true);
      }
      ghost var before := events;
      if Succeeded(call) {
        events := events + [SuccessCallback(call.data)];
      } else {
        ReportFailure(call, isBrowser);
      }
      assert events == before + Settled(call, isBrowser);
      if hasSetLoading {
        SetLoading(false);
      }
    }

    /** The `catch` block of `requestHandler`: log out on an authentication failure, then call `onError`. */
    method ReportFailure(call: ApiCall, isBrowser: bool)
      requires !Succeeded(call)
      modifies this
      ensures events == old(events) + LogoutEvents(call, isBrowser) + [ErrorCallback(ErrorMessage(call))]
      ensures storage == if AuthFailure(call) then map[] else old(storage)
      ensures location == if AuthFailure(call) && isBrowser then "/login" else old(location)
    {
      var errorMessage: string;
      if call.Answered? {
        errorMessage := if Truthy(MessageOf(call.data)) then MessageOf(call.data).value else FALLBACK_MESSAGE;
      } else {
        errorMessage := if call.error.NonError? then FALLBACK_MESSAGE else call.error.message;
        if call.error.AxiosError? && call.error.response.Some? {
          var statusCode := if call.error.response.value.data.Some? then call.error.response.value.data.value.statusCode else None;
          if statusCode == Some(401) || statusCode == Some(403) {
            storage := map[];
            events := events + [StorageCleared];
            if isBrowser {
              location := "/login";
              events := events + [Redirected("/login")];
            }
          }
          var serverMessage := MessageOf(call.error.response.value.data);
          errorMessage := if Truthy(serverMessage) then serverMessage.value else errorMessage;
        }
      }
      events := events + [ErrorCallback(errorMessage)];
    }
  }

  /**
   * With a `setLoading`, the run opens with `setLoading(true)`, closes with
   * `setLoading(false)`, and toggles it nowhere else; without one, it never
   * toggles it.
   */
  lemma TraceLoading(call: ApiCall, hasSetLoading: bool, isBrowser: bool)
    ensures var t := Trace(call, hasSetLoading, isBrowser);
      && (hasSetLoading ==>
            |t| >= 3 && t[0] == Loading(true) && t[|t| - 1] == Loading(false)
            && forall i :: 0 < i < |t| - 1 ==> !t[i].Loading?)
      && (!hasSetLoading ==> forall i :: 0 <= i < |t| ==> !t[i].Loading?)
  {
  }

  /**
   * Exactly one of the two callbacks runs, `onSuccess` iff the call
   * succeeded; the session is dropped iff the error body says 401 or 403,
   * and the page moves to /login only in a browser.
   */
  lemma TraceCallbacks(call: ApiCall, hasSetLoading: bool, isBrowser: bool)
    ensures var t := Trace(call, hasSetLoading, isBrowser);
      && (Succeeded(call) ==> SuccessCallback(call.data) in t && forall e :: e in t ==> !e.ErrorCallback?)
      && (!Succeeded(call) ==> ErrorCallback(ErrorMessage(call)) in t && forall e :: e in t ==> !e.SuccessCallback?)
      && (StorageCleared in t <==> AuthFailure(call))
      && (Redirected("/login") in t <==> AuthFailure(call) && isBrowser)
  {
    var on := if hasSetLoading then [Loading(true)] else [];
    var off := if hasSetLoading then [Loading(false)] else [];
    var m := Settled(call, isBrowser);
    SettledCallbacks(call, isBrowser);
    assert Trace(call, hasSetLoading, isBrowser) == on + m + off;
    forall e: Event | !e.Loading?
      ensures e in on + m + off <==> e in m
    {
    }
  }

  /** The same, between the two `setLoading` calls. */
  lemma SettledCallbacks(call: ApiCall, isBrowser: bool)
    ensures var m := Settled(call, isBrowser);
      && (Succeeded(call) ==> m == [SuccessCallback(call.data)])
      && (!Succeeded(call) ==> ErrorCallback(ErrorMessage(call)) in m && forall e :: e in m ==> !e.SuccessCallback?)
      && (StorageCleared in m <==> AuthFailure(call))
      && (Redirected("/login") in m <==> AuthFailure(call) && isBrowser)
  {
    if !Succeeded(call) {
      var l := LogoutEvents(call, isBrowser);
      assert forall e :: e in l ==> e == StorageCleared || e == Redirected("/login");
    }
  }

  /** An answered call that reports failure is surfaced with the server's message, or the fallback. */
  lemma AnsweredFailureMessage(status: int, body: ResponseBody)
    requires !body.status && status != 204
    ensures !Succeeded(Answered(status, Some(body)))
    ensures ErrorMessage(Answered(status, Some(body))) ==
      if body.message.Some? && body.message.value != "" then body.message.value else FALLBACK_MESSAGE
  {
  }
}
