/** The chat page (script.js): the greeting, the guard on outgoing messages, the single
    loading message, the clean-up of the reply text and the word-by-word typing effect.
    The clock, the network and the dialog answers are inputs; each timer-driven typing
    effect runs to its last word in one step. */
module Chat {
  import opened Common
  import opened JsString
  import opened Json
  import opened Responses

  const Morning: string := "Good Morning"
  const Afternoon: string := "Good Afternoon"
  const Evening: string := "Good Evening"
  const Night: string := "Good Night"

  /** `getGreeting()` for the local hour `hours`. */
  function Greeting(hours: int): string {
    if 5 <= hours < 12 then Morning
    else if 12 <= hours < 15 then Afternoon
    else if 15 <= hours < 18 then Evening
    else Night
  }

  /** The four greetings partition the day: each hour gets exactly the greeting of its
      range. */
  lemma GreetingPartition(hours: int)
    requires 0 <= hours < 24
    ensures Greeting(hours) == Morning <==> 5 <= hours < 12
    ensures Greeting(hours) == Afternoon <==> 12 <= hours < 15
    ensures Greeting(hours) == Evening <==> 15 <= hours < 18
    ensures Greeting(hours) == Night <==> hours < 5 || 18 <= hours
  {
    assert |Morning| == 12 && |Afternoon| == 14 && |Evening| == 12 && |Night| == 10;
    assert Morning[5] == 'M' && Evening[5] == 'E';
  }

  // ----- the reply text -----

  /** The characters `.` does not match in a JavaScript regular expression. */
  predicate IsLineTerminator(c: char) {
    c == '\n' || c == '\r' || c == '\U{2028}' || c == '\U{2029}'
  }

  /** Where the lazy `(.*?)\*\*` starting at `j` ends: the first `**` at or after `j`
      with no line terminator before it, or `|s|` when there is none. */
  function CloseAt(s: string, j: nat): (k: nat)
    requires j <= |s|
    ensures k == |s| || (j <= k && k + 2 <= |s| && s[k] == '*' && s[k + 1] == '*')
    ensures k < |s| ==> forall m | j <= m < k :: !IsLineTerminator(s[m])
    decreases |s| - j
  {
    if j + 2 > |s| then |s|
    else if s[j] == '*' && s[j + 1] == '*' then j
    else if IsLineTerminator(s[j]) then |s|
    else CloseAt(s, j + 1)
  }

  /** `s.replace(/\*\*(.*?)\*\*\/g, "$1")`: scanning from the left, each `**` that has a
      closing `**` later on the same line is removed together with it. */
  function StripBold(s: string): (r: string)
    ensures |r| <= |s|
    decreases |s|
  {
    if |s| >= 2 && s[0] == '*' && s[1] == '*' && CloseAt(s, 2) < |s| then
      var k := CloseAt(s, 2);
      s[2..k] + StripBold(s[k + 2..])
    else if s == [] then []
    else [s[0]] + StripBold(s[1..])
  }

  /** Text without a `*` passes unchanged. */
  lemma {:induction false} StripBoldPlain(s: string)
    requires forall m | 0 <= m < |s| :: s[m] != '*'
    ensures StripBold(s) == s
    decreases |s|
  {
    if s != [] {
      StripBoldPlain(s[1..]);
    }
  }

  /** A bold word on one line loses its markers: "**" + w + "**" + rest becomes w
      followed by the clean-up of rest. */
  lemma BoldPairStripped(w: string, rest: string)
    requires forall m | 0 <= m < |w| :: w[m] != '*' && !IsLineTerminator(w[m])
    ensures StripBold("**" + w + "**" + rest) == w + StripBold(rest)
  {
    var s := "**" + w + "**" + rest;
    CloseAtSkips(s, 2, 2 + |w|);
    assert s[2..2 + |w|] == w;
    assert s[2 + |w| + 2..] == rest;
  }

  lemma {:induction false} CloseAtSkips(s: string, j: nat, k: nat)
    requires j <= k && k + 2 <= |s| && s[k] == '*' && s[k + 1] == '*'
    requires forall m | j <= m < k :: s[m] != '*' && !IsLineTerminator(s[m])
    ensures CloseAt(s, j) == k
    decreases k - j
  {
    if j < k {
      CloseAtSkips(s, j + 1, k);
    }
  }

  const NotObjectError: string := "API response is empty or not a valid object."
  const ReplaceError: string := "responseText.replace is not a function"
  const ServerError: string := "Server Error"
  const AlertPrefix: string := "An error occurred: "

  /** What `generateAPIResponse` shows for a reply body: the cleaned `result` text ("" when
      it is missing or falsy), or the message of the error it throws for a body that is
      not an object or a `result` that is not a string. */
  function ReplyText(apiResponse: Json): (r: Result<string, string>)
    ensures !IsTruthy(apiResponse) ==> r == Failure(NotObjectError)
    ensures !apiResponse.Object? && !apiResponse.Array? ==> r == Failure(NotObjectError)
    ensures apiResponse.Array? ==> r == Success("")
    ensures apiResponse.Object? && IsTruthy(Field(apiResponse, "result")) && !Field(apiResponse, "result").String? ==>
              r == Failure(ReplaceError)
    ensures apiResponse.Object? && !IsTruthy(Field(apiResponse, "result")) ==> r == Success("")
    ensures apiResponse.Object? && Field(apiResponse, "result").String? ==>
              r == Success(StripBold(Field(apiResponse, "result").s))
  {
    if !IsTruthy(apiResponse) || !(apiResponse.Object? || apiResponse.Array?) then Failure(NotObjectError)
    else
      var result := Field(apiResponse, "result");
      var responseText := if IsTruthy(result) then result else String("");
      if responseText.String? then Success(StripBold(responseText.s)) else Failure(ReplaceError)
  }

  /** The message of the `Error` thrown for a non-OK answer:
      `result.error?.message || "Server Error"`. */
  function ServerErrorMessage(body: Json, show: Json -> string): (m: string)
    ensures body.Null? ==> m == NullBodyError
    ensures !body.Null? && !Field(body, "error").Object? ==> m == ServerError
  {
    if body.Null? then NullBodyError
    else
      var err := Field(body, "error");
      var message := if err.Null? || err.Undefined? then Undefined else Field(err, "message");
      if IsTruthy(message) then MessageText(message, show) else ServerError
  }

  // ----- the page -----

  datatype Message =
    | Outgoing(text: string)
    | Incoming(text: string, loading: bool, error: bool)

  predicate IsLoading(m: Message) {
    m.Incoming? && m.loading
  }

  /** No two messages carry the `loading` class. */
  predicate AtMostOneLoading(ms: seq<Message>) {
    forall i, j | 0 <= i < j < |ms| :: !(IsLoading(ms[i]) && IsLoading(ms[j]))
  }

  /** The loading message shows no text yet. */
  predicate LoadingBlank(ms: seq<Message>) {
    forall i | 0 <= i < |ms| && IsLoading(ms[i]) :: ms[i].text == ""
  }

  /** Rewriting a message that is not loading, into one that is not loading either,
      leaves the loading messages as they were. */
  lemma RewriteSettled(ms: seq<Message>, idx: nat, m: Message)
    requires idx < |ms| && !IsLoading(ms[idx]) && !IsLoading(m)
    ensures AtMostOneLoading(ms) ==> AtMostOneLoading(ms[idx := m])
    ensures LoadingBlank(ms) ==> LoadingBlank(ms[idx := m])
  {
  }

  /** Position of the message carrying the `loading` class (what
      `document.querySelector(".message.loading")` finds), or `|ms|` when there is none. */
  function LoadingAt(ms: seq<Message>): (i: nat)
    ensures i <= |ms|
    ensures i < |ms| ==> IsLoading(ms[i])
    ensures forall j | 0 <= j < i :: !IsLoading(ms[j])
  {
    if ms == [] then 0
    else if IsLoading(ms[0]) then 0
    else 1 + LoadingAt(ms[1..])
  }

  /** The text the typing effect has written after `n` ticks. */
  function Typed(words: seq<string>, n: nat): string
    requires n <= |words|
  {
    if n == 0 then "" else Join(words[..n], ' ')
  }

  /** One tick appends the next word, after a space unless it is the first. */
  lemma TypedStep(words: seq<string>, n: nat)
    requires n < |words|
    ensures Typed(words, n + 1) == Typed(words, n) + (if n == 0 then "" else " ") + words[n]
  {
    if n > 0 {
      JoinSnoc(words[..n], words[n], ' ');
      assert words[..n + 1] == words[..n] + [words[n]];
    } else {
      assert words[..1] == [words[0]];
    }
  }

  /** After all ticks the typing effect has written its input back exactly. */
  lemma TypedAll(text: string)
    ensures var words := Split(text, ' ');
            Typed(words, |words|) == text
  {
    var words := Split(text, ' ');
    assert words[..|words|] == words;
    JoinSplit(text, ' ');
  }

  class ChatPage {
    /** `userMessage`: null until a non-blank message is typed, then the last one. */
    var userMessage: Option<string>
    /** `isResponseGenerating`. */
    var generating: bool
    /** The chat list. */
    var messages: seq<Message>
    var alerts: seq<string>

    ghost predicate Valid()
      reads this
    {
      AtMostOneLoading(messages) &&
      LoadingBlank(messages) &&
      (userMessage.Some? ==> userMessage.value != "")
    }

    constructor ()
      ensures Valid()
      ensures userMessage == None && !generating && messages == [] && alerts == []
    {
      userMessage := None;
      generating := false;
      messages := [];
      alerts := [];
    }

    /** `handleOutgoingChat` with the typed text `input`: the trimmed input, or the
        previous message when it is blank, is shown unless there is none or a response
        is being generated. `sent` says whether the message went out (and the loading
        message is scheduled). */
    method HandleOutgoingChat(input: string) returns (sent: bool)
      requires Valid()
      modifies this
      ensures Valid()
      ensures userMessage == if Trim(input) != "" then Some(Trim(input)) else old(userMessage)
      ensures sent <==> userMessage.Some? && !old(generating)
      ensures sent ==> generating && messages == old(messages) + [Outgoing(userMessage.value)]
      ensures !sent ==> generating == old(generating) && messages == old(messages)
      ensures alerts == old(alerts)
    {
      var trimmed := Trim(input);
      if trimmed != "" {
        userMessage := Some(trimmed);
      }
      if userMessage.None? || generating {
        return false;
      }
      generating := true;
      messages := messages + [Outgoing(userMessage.value)];
      return true;
    }

    /** `showLoadingAnimation()`: the existing loading message, or a new empty one. */
    method ShowLoadingAnimation() returns (idx: nat)
      requires Valid()
      modifies this
      ensures Valid()
      ensures idx < |messages| && IsLoading(messages[idx])
      ensures idx == LoadingAt(old(messages))
      ensures messages == if idx < |old(messages)| then old(messages)
                          else old(messages) + [Incoming("", true, false)]
      ensures userMessage == old(userMessage) && generating == old(generating) && alerts == old(alerts)
    {
      var i := 0;
      while i < |messages|
        invariant 0 <= i <= |messages|
        invariant forall j | 0 <= j < i :: !IsLoading(messages[j])
        invariant LoadingAt(messages) >= i
      {
        if IsLoading(messages[i]) {
          return i;
        }
        i := i + 1;
      }
      messages := messages + [Incoming("", true, false)];
      return i;
    }

    /** `generateAPIResponse(apiResponse, div)` for the incoming message `idx`: the error
        text is shown in error style, or the cleaned text is typed word by word after what
        the message holds, after which a new message may be sent. The loading class goes in
        every case. */
    method GenerateApiResponse(idx: nat, apiResponse: Json)
      requires Valid() && idx < |messages| && messages[idx].Incoming?
      modifies this
      ensures Valid()
      ensures |messages| == |old(messages)|
      ensures forall j | 0 <= j < |messages| && j != idx :: messages[j] == old(messages[j])
      ensures ReplyText(apiResponse).Failure? ==>
                messages[idx] == Incoming(ReplyText(apiResponse).error, false, true) &&
                generating == old(generating)
      ensures ReplyText(apiResponse).Success? ==>
                messages[idx] == old(messages[idx]).(text := old(messages[idx]).text + ReplyText(apiResponse).value,
                                                     loading := false) &&
                !generating
      ensures userMessage == old(userMessage) && alerts == old(alerts)
    {
      var reply := ReplyText(apiResponse);
      if reply.Failure? {
        messages := messages[idx := Incoming(reply.error, false, true)];
        return;
      }
      messages := messages[idx := messages[idx].(loading := false)];
      ShowTypingEffect(idx, reply.value);
    }

    /** `showTypingEffect(text, ...)`: one word per tick, separated by single spaces; at the
        last word the generating flag is cleared. */
    method ShowTypingEffect(idx: nat, text: string)
      requires Valid() && idx < |messages| && messages[idx].Incoming? && !messages[idx].loading
      modifies this
      ensures Valid()
      ensures messages == old(messages)[idx := old(messages[idx]).(text := old(messages[idx]).text + text)]
      ensures !generating
      ensures userMessage == old(userMessage) && alerts == old(alerts)
    {
      var words := Split(text, ' ');
      var start := messages[idx].text;
      ghost var entry := messages[idx];
      assert start + Typed(words, 0) == start;
      var n := 0;
      while n < |words|
        invariant 0 <= n <= |words| && idx < |messages|
        invariant messages == old(messages)[idx := entry.(text := start + Typed(words, n))]
        invariant userMessage == old(userMessage) && alerts == old(alerts)
      {
        var piece := (if n == 0 then "" else " ") + words[n];
        TypedStep(words, n);
        assert start + Typed(words, n) + piece == start + Typed(words, n + 1);
        messages := messages[idx := messages[idx].(text := messages[idx].text + piece)];
        n := n + 1;
      }
      TypedAll(text);
      RewriteSettled(old(messages), idx, entry.(text := start + Typed(words, |words|)));
      generating := false;
    }

    /** The reply to a chat request: an unusable reply is only reported in an alert and
        leaves the generating flag set; an OK answer is shown in the loading message
        (created when there is none), as the cleaned reply text, which clears the flag,
        or as the error text in error style, which does not. */
    method OnReply(reply: Reply, show: Json -> string)
      requires Valid()
      modifies this
      ensures Valid()
      ensures reply.Rejected? ==>
                alerts == old(alerts) + [AlertPrefix + reply.message] && messages == old(messages) &&
                generating == old(generating)
      ensures reply.Answered? && !Ok(reply.status) ==>
                alerts == old(alerts) + [AlertPrefix + ServerErrorMessage(reply.body, show)] &&
                messages == old(messages) && generating == old(generating)
      ensures reply.Answered? && Ok(reply.status) ==>
                var idx := LoadingAt(old(messages));
                var shown := ReplyText(reply.body);
                alerts == old(alerts) && idx < |messages| &&
                |messages| == (if idx < |old(messages)| then |old(messages)| else |old(messages)| + 1) &&
                (forall j | 0 <= j < |old(messages)| && j != idx :: messages[j] == old(messages)[j]) &&
                (shown.Failure? ==> messages[idx] == Incoming(shown.error, false, true) &&
                                    generating == old(generating)) &&
                (shown.Success? ==> messages[idx].Incoming? && !messages[idx].loading &&
                                    messages[idx].text == shown.value && !generating)
      ensures userMessage == old(userMessage)
    {
      match reply {
        case Rejected(message) =>
          alerts := alerts + [AlertPrefix + message];
        case Answered(status, body) =>
          if !Ok(status) {
            alerts := alerts + [AlertPrefix + ServerErrorMessage(body, show)];
            return;
          }
          var idx := ShowLoadingAnimation();
          assert messages[idx].text == "";
          GenerateApiResponse(idx, body);
      }
    }

    /** The delete button: a confirmed dialog empties the chat list. */
    method DeleteChats(confirmed: bool)
      requires Valid()
      modifies this
      ensures Valid()
      ensures messages == if confirmed then [] else old(messages)
      ensures userMessage == old(userMessage) && generating == old(generating) && alerts == old(alerts)
    {
      if confirmed {
        messages := [];
      }
    }
  }
}
