/** The end-of-session summary of src/hooks/useSessionMemory.js: the conversation is rendered as one
    `ROLE: text` line per message and offered to the beacon; the stored log is cleared only when the
    beacon accepts it. The beacon's answer is an input. */
module SessionMemory {
  import opened Wrappers
  import JsText
  import SessionMessages

  type Message = SessionMessages.Message

  /** What is handed to the beacon: exactly the token and the summary text. */
  datatype Payload = Payload(token: Option<string>, text: string)

  /** One summary line: the role upper-cased, a colon and a space, then the text. */
  function SummaryLine(m: Message): (line: string)
    ensures |line| == |m.role| + 2 + |m.text|
    ensures line[..|m.role|] == JsText.ToUpperAscii(m.role)
    ensures line[|m.role|..|m.role| + 2] == ": " && line[|m.role| + 2..] == m.text
  {
    JsText.ToUpperAscii(m.role) + ": " + m.text
  }

  function SummaryLines(messages: seq<Message>): (lines: seq<string>)
    ensures |lines| == |messages|
    ensures forall i :: 0 <= i < |messages| ==> lines[i] == SummaryLine(messages[i])
  {
    seq(|messages|, i requires 0 <= i < |messages| => SummaryLine(messages[i]))
  }

  /** The summary text: the lines joined by newlines, in message order. */
  function Summary(messages: seq<Message>): string {
    JsText.Join(SummaryLines(messages), '\n')
  }

  /** The key that is cleared: the prefix and the token as the template renders it, "null" for the hook's null
      token. */
  function MemoryKey(token: Option<string>): (key: string)
    ensures |key| >= |SessionMessages.StoragePrefix| && key[..|SessionMessages.StoragePrefix|] == SessionMessages.StoragePrefix
    ensures token.Some? ==> key[|SessionMessages.StoragePrefix|..] == token.value
    ensures token.None? ==> key[|SessionMessages.StoragePrefix|..] == "null"
  {
    SessionMessages.StoragePrefix + (if token.Some? then token.value else "null")
  }

  /** The key cleared here is the key the log was written under exactly when the token is present and
      non-empty; an empty token clears `pf_chat_` while the log lives under `pf_chat_anon`. */
  lemma MemoryKeyMatchesLog(token: Option<string>)
    ensures MemoryKey(token) == SessionMessages.MessagesKey(token) <==> token.Some? && token.value != ""
  {
    if token.None? {
      assert MemoryKey(token)[|SessionMessages.StoragePrefix|..] == "null";
      assert SessionMessages.MessagesKey(token)[|SessionMessages.StoragePrefix|..] == "anon";
    } else if token.value == "" {
      assert |MemoryKey(token)| < |SessionMessages.MessagesKey(token)|;
    }
  }

  /** When no role or text holds a newline, splitting the summary on newlines gives back exactly one
      line per message, in order. */
  lemma SummaryLinesRecoverable(messages: seq<Message>)
    requires messages != []
    requires forall i :: 0 <= i < |messages| ==> '\n' !in messages[i].role && '\n' !in messages[i].text
    ensures JsText.Split(Summary(messages), '\n') == SummaryLines(messages)
  {
    var lines := SummaryLines(messages);
    forall k | 0 <= k < |lines| ensures '\n' !in lines[k] {
      var m := messages[k];
      assert lines[k] == JsText.ToUpperAscii(m.role) + ": " + m.text;
      forall c | c in JsText.ToUpperAscii(m.role) ensures c != '\n' {
        var i :| 0 <= i < |m.role| && JsText.ToUpperAscii(m.role)[i] == c;
        assert m.role[i] != '\n' by { assert m.role[i] in m.role; }
      }
    }
    JsText.SplitJoin(lines, '\n');
  }

  /** `saveSessionMemory`: with no messages nothing is offered and storage is untouched. Otherwise the
      payload is offered to the beacon, and the key is removed only when the beacon reports `sent`. */
  method SaveSessionMemory(storage: SessionMessages.SessionStorage, messages: Option<seq<Message>>,
                           token: Option<string>, sent: bool) returns (offered: Option<Payload>)
    modifies storage
    ensures messages.None? || messages.value == [] ==> offered.None? && storage.entries == old(storage.entries)
    ensures messages.Some? && messages.value != [] ==>
              offered == Some(Payload(token, Summary(messages.value)))
              && storage.entries == (if sent then old(storage.entries) - {MemoryKey(token)} else old(storage.entries))
  {
    if messages.None? || |messages.value| == 0 {
      return None;
    }
    var key := MemoryKey(token);
    var text := Summary(messages.value);
    offered := Some(Payload(token, text));
    if sent {
      storage.entries := storage.entries - {key};
    }
  }
}
