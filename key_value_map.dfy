/**
 * The key-value webview tool: the extension side keeps one string-to-string
 * object, changes it by the message the webview sends, and replies with the
 * whole object. The object is the field `data` of a `KeyValuePanel`, which
 * keeps it between messages in place of the backing file.
 */
module KeyValueMap {
  import opened Wrappers
  import opened Text

  type Data = map<string, string>

  /** `{ type, key, value }` as posted by the webview; `value` is unused by "delete" and "load". */
  datatype Message = Message(kind: string, key: string, value: string)

  /** `{ type: "data", data }` as posted back to the webview. */
  datatype Reply = DataReply(data: Data)

  /** The one key whose assignment JavaScript routes to the inherited `Object.prototype.__proto__` setter. */
  const ProtoKey := "__proto__"

  /**
   * Whether `data[key] = value` stores a string on the object `JSON.parse`
   * returned. Parsing makes every key an own property, and assignment then
   * updates it. An absent "__proto__" is different: the assignment reaches
   * the inherited setter, which ignores a string, so nothing is stored.
   */
  predicate Assignable(data: Data, key: string) {
    key != ProtoKey || key in data
  }

  /** `data[key] = value` on the parsed object. */
  function Assign(data: Data, key: string, value: string): Data {
    if Assignable(data, key) then data[key := value] else data
  }

  /**
   * What one message does to the object. "add" and "update" set the key and
   * keep every other entry, except an absent "__proto__", which is not stored.
   * "delete" drops the key and keeps every other entry, and changes nothing
   * when the key is absent. Any other kind, "load" included, changes nothing.
   */
  function Apply(data: Data, msg: Message): (r: Data)
    ensures msg.kind in {"add", "update"} && Assignable(data, msg.key) ==>
      && msg.key in r && r[msg.key] == msg.value
      && r.Keys == data.Keys + {msg.key}
      && forall k :: k in data && k != msg.key ==> r[k] == data[k]
    ensures msg.kind in {"add", "update"} && !Assignable(data, msg.key) ==> r == data
    ensures msg.kind == "delete" ==>
      && r.Keys == data.Keys - {msg.key}
      && forall k :: k in r ==> r[k] == data[k]
    ensures msg.kind == "delete" && msg.key !in data ==> r == data
    ensures msg.kind !in {"add", "update", "delete"} ==> r == data
  {
    if msg.kind == "add" || msg.kind == "update" then Assign(data, msg.key, msg.value)
    else if msg.kind == "delete" then data - {msg.key}
    else data
  }

  /** The object after a panel has handled `msgs` in order. */
  function ApplyAll(data: Data, msgs: seq<Message>): Data
    decreases |msgs|
  {
    if msgs == [] then data else ApplyAll(Apply(data, msgs[0]), msgs[1..])
  }

  /** "update" has the same effect as "add". */
  lemma UpdateIsAdd(data: Data, key: string, value: string)
    ensures Apply(data, Message("update", key, value)) == Apply(data, Message("add", key, value))
  {
  }

  /** Deleting a key twice is deleting it once. */
  lemma DeleteTwice(data: Data, key: string, value: string, value': string)
    ensures Apply(Apply(data, Message("delete", key, value)), Message("delete", key, value'))
         == Apply(data, Message("delete", key, value))
  {
  }

  /** True of a message that changes the object only at its own key, if at all. */
  predicate Changes(msg: Message) {
    msg.kind in {"add", "update", "delete"}
  }

  /**
   * After an "add" of `key`, later messages that change no entry of `key`
   * leave its value in place: later loads find it. An absent "__proto__" was
   * never stored and stays absent.
   */
  lemma {:induction false} AddSurvives(data: Data, key: string, value: string, later: seq<Message>)
    requires forall i :: 0 <= i < |later| && Changes(later[i]) ==> later[i].key != key
    ensures var r := ApplyAll(data, [Message("add", key, value)] + later);
      if Assignable(data, key) then key in r && r[key] == value else key !in r
  {
    var start := Apply(data, Message("add", key, value));
    assert ([Message("add", key, value)] + later)[1..] == later;
    KeysUntouched(start, later, key);
  }

  /** Messages that change no entry of `key` neither add, remove nor change it. */
  lemma {:induction false} KeysUntouched(data: Data, msgs: seq<Message>, key: string)
    requires forall i :: 0 <= i < |msgs| && Changes(msgs[i]) ==> msgs[i].key != key
    ensures var r := ApplyAll(data, msgs);
      && (key in r <==> key in data)
      && (key in data ==> r[key] == data[key])
    decreases |msgs|
  {
    if msgs != [] {
      KeysUntouched(Apply(data, msgs[0]), msgs[1..], key);
    }
  }

  /**
   * The webview's `add()`: both fields are trimmed, and an empty key sends
   * nothing (the user is alerted instead).
   */
  function AddRequest(keyField: string, valueField: string): (r: Option<Message>)
    ensures r.None? <==> AllWhitespace(keyField)
    ensures r.Some? ==> r.value.kind == "add" && r.value.key != [] && Trimmed(r.value.key)
    ensures r.Some? ==> r.value.key == Trim(keyField) && r.value.value == Trim(valueField)
  {
    var key := Trim(keyField);
    if key == [] then None else Some(Message("add", key, Trim(valueField)))
  }

  class KeyValuePanel {
    var data: Data

    /** `loadData`: with no stored file the object starts empty. */
    constructor (stored: Option<Data>)
      ensures data == (if stored.Some? then stored.value else map[])
    {
      data := if stored.Some? then stored.value else map[];
    }

    /**
     * `onDidReceiveMessage`: the object changes as `Apply` says and every
     * reply carries the whole object as it now is; "load" is answered
     * twice, once by its own branch and once by the final reply.
     */
    method Handle(msg: Message) returns (replies: seq<Reply>)
      modifies this
      ensures data == Apply(old(data), msg)
      ensures |replies| == (if msg.kind == "load" then 2 else 1)
      ensures forall i :: 0 <= i < |replies| ==> replies[i] == DataReply(data)
    {
      replies := [];
      if msg.kind == "add" {
        data := Assign(data, msg.key, msg.value);
      }
      if msg.kind == "delete" {
        data := data - {msg.key};
      }
      if msg.kind == "load" {
        replies := replies + [DataReply(data)];
      }
      if msg.kind == "update" {
        data := Assign(data, msg.key, msg.value);
      }
      replies := replies + [DataReply(data)];
    }
  }
}
