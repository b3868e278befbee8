/** The bounded chat log of src/hooks/useSessionMessages.js: messages kept per token in session storage,
    trimmed to the most recent `limit` entries on every append. JSON is abstracted: a stored entry is
    either the serialised list, a blank string or text that does not parse. */
module SessionMessages {
  import opened Wrappers

  const StoragePrefix := "pf_chat_"
  const DefaultLimit: int := 20

  datatype Message = Message(id: string, role: string, text: string, timestamp: int)

  /** What `sessionStorage.getItem` can hand back for a key that is present. */
  datatype Stored = Serialized(messages: seq<Message>) | Blank | Unparsable

  /** The storage key: the prefix followed by the token, or by "anon" when the token is missing or empty. */
  function MessagesKey(token: Option<string>): (key: string)
    ensures |key| > |StoragePrefix| && key[..|StoragePrefix|] == StoragePrefix
    ensures token.Some? && token.value != "" ==> key[|StoragePrefix|..] == token.value
    ensures token.None? || token.value == "" ==> key[|StoragePrefix|..] == "anon"
  {
    StoragePrefix + (if token.Some? && token.value != "" then token.value else "anon")
  }

  /** The limit in force: the caller's, or the default when none is given. */
  function EffectiveLimit(limit: Option<int>): (n: int)
    ensures limit.None? ==> n == DefaultLimit
    ensures limit.Some? ==> n == limit.value
  {
    if limit.Some? then limit.value else DefaultLimit
  }

  /** The initial list: a missing, blank or unparsable entry gives the empty list. */
  function Load(storage: map<string, Stored>, key: string): (messages: seq<Message>)
    ensures key in storage && storage[key].Serialized? ==> messages == storage[key].messages
    ensures key !in storage || !storage[key].Serialized? ==> messages == []
  {
    if key in storage && storage[key].Serialized? then storage[key].messages else []
  }

  /** JavaScript's `s.slice(start)` for an integer start: a negative start counts from the end. */
  function SliceFrom<T>(s: seq<T>, start: int): (r: seq<T>)
    ensures start < 0 ==> r == s[if |s| + start < 0 then 0 else |s| + start..]
    ensures start >= 0 ==> r == s[if start > |s| then |s| else start..]
  {
    var k := if start < 0 then (if |s| + start < 0 then 0 else |s| + start)
             else (if start > |s| then |s| else start);
    s[k..]
  }

  /** The list after an append: `prev ++ [m]`, then `slice(-limit)` unless the limit is 0. */
  function Appended(prev: seq<Message>, m: Message, limit: int): seq<Message> {
    var next := prev + [m];
    if limit == 0 then next else SliceFrom(next, -limit)
  }

  /** With a positive limit the result is the newest `min(|prev|+1, limit)` messages, ending with `m`:
      the oldest are dropped first. */
  lemma AppendedBounded(prev: seq<Message>, m: Message, limit: int)
    requires limit > 0
    ensures var r := Appended(prev, m, limit);
            |r| == (if |prev| + 1 < limit then |prev| + 1 else limit)
            && r == (prev + [m])[|prev| + 1 - |r|..]
            && r[|r| - 1] == m
  {
  }

  /** With limit 0 nothing is trimmed. */
  lemma AppendedUnlimited(prev: seq<Message>, m: Message)
    ensures Appended(prev, m, 0) == prev + [m]
  {
  }

  /** Under a positive limit, a log that fits the limit keeps fitting it, and a log that is still shorter
      than the limit only grows. */
  lemma AppendedKeepsBound(prev: seq<Message>, m: Message, limit: int)
    requires limit > 0 && |prev| <= limit
    ensures |Appended(prev, m, limit)| <= limit
    ensures |prev| < limit ==> Appended(prev, m, limit) == prev + [m]
  {
    AppendedBounded(prev, m, limit);
  }

  /** Two non-empty tokens share a key only when they are equal; a missing token shares its key with
      the token "anon". */
  lemma MessagesKeyInjective(a: Option<string>, b: Option<string>)
    requires a.Some? && a.value != "" && b.Some? && b.value != ""
    ensures MessagesKey(a) == MessagesKey(b) <==> a == b
    ensures MessagesKey(None) == MessagesKey(Some("anon"))
  {
    if MessagesKey(a) == MessagesKey(b) {
      assert a.value == MessagesKey(a)[|StoragePrefix|..];
    }
  }

  /** Session storage as a key-to-entry map. */
  class SessionStorage {
    var entries: map<string, Stored>

    constructor (entries: map<string, Stored>)
      ensures this.entries == entries
    {
      this.entries := entries;
    }
  }

  /** The hook's state for one token and limit. */
  class MessageLog {
    const key: string
    const limit: int
    var messages: seq<Message>

    constructor (storage: SessionStorage, token: Option<string>, limit: Option<int>)
      ensures key == MessagesKey(token) && this.limit == EffectiveLimit(limit)
      ensures messages == Load(storage.entries, key)
    {
      key := MessagesKey(token);
      this.limit := EffectiveLimit(limit);
      messages := Load(storage.entries, MessagesKey(token));
    }

    /** `addMessage`: the list becomes `Appended(messages, m, limit)`; it is written under the key unless
        the write fails (`writable` false), and the new message's id is returned either way. */
    method AddMessage(storage: SessionStorage, role: string, text: string, id: string, timestamp: int,
                      writable: bool) returns (added: string)
      modifies this, storage
      ensures added == id
      ensures messages == Appended(old(messages), Message(id, role, text, timestamp), limit)
      ensures limit >= 0 ==> |messages| > 0 && messages[|messages| - 1] == Message(id, role, text, timestamp)
      ensures writable ==> storage.entries == old(storage.entries)[key := Serialized(messages)]
      ensures !writable ==> storage.entries == old(storage.entries)
    {
      var m := Message(id, role, text, timestamp);
      var next := messages + [m];
      var trimmed := if limit == 0 then next else SliceFrom(next, -limit);
      if writable {
        storage.entries := storage.entries[key := Serialized(trimmed)];
      }
      messages := trimmed;
      added := id;
    }
  }

  /** A successful write followed by a fresh load of the same key gives back the list just written. */
  lemma WrittenListReloads(storage: map<string, Stored>, key: string, messages: seq<Message>)
    ensures Load(storage[key := Serialized(messages)], key) == messages
  {
  }
}
