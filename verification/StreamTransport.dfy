/**
Normalisation of stream replies. XREADGROUP answers with (stream name, entries) pairs, while
XAUTOCLAIM answers with the entries themselves; both replies go through one parser.
*/
module StreamTransport {
  import opened Common

  // A stream entry: its id and the names of its fields.
  datatype Entry = Entry(id: string, fields: seq<string>)

  // One element of a reply: a pair whose second half is a list of entries or a field mapping.
  datatype Item = StreamReply(name: string, entries: seq<Entry>) | EntryReply(entry: Entry)

  datatype Failure = TooManyOrFewValuesToUnpack

  // What the caller is handed: the message id and its fields, when the fields are a mapping.
  datatype Message = Message(id: string, fields: Option<seq<string>>)

  // The names every published message carries, in the order they are written.
  const PUBLISHED_FIELDS: seq<string> := ["event", "event_id", "event_type", "tenant_id", "schema_version"]

  /** _parse_entries: unpack each item into (name, entries), and each of those into (id, fields).
      Iterating over a field mapping yields its keys, and a key unpacks only if it has length 2. */
  method ParseEntries(reply: seq<Item>) returns (r: Result<seq<Message>, Failure>)
    ensures r == Parsed(reply)
  {
    var messages := [];
    assert reply[0..] == reply;
    PrependedNothing(Parsed(reply));
    for i := 0 to |reply|
      invariant Parsed(reply) == Prepended(messages, Parsed(reply[i..]))
    {
      assert reply[i..][0] == reply[i] && reply[i..][1..] == reply[i + 1..];
      var unpacked;
      match reply[i] {
        case StreamReply(_, entries) =>
          unpacked := FromEntries(entries);
        case EntryReply(entry) =>
          var keys := UnpackKeys(entry.fields);
          if keys.Err? {
            return Err(keys.error);
          }
          unpacked := keys.value;
      }
      PrependedTwice(messages, unpacked, Parsed(reply[i + 1..]));
      messages := messages + unpacked;
    }
    assert reply[|reply|..] == [];
    assert messages + [] == messages;
    r := Ok(messages);
  }

  method UnpackKeys(keys: seq<string>) returns (r: Result<seq<Message>, Failure>)
    ensures r == FromKeys(keys)
  {
    var messages := [];
    assert keys[0..] == keys;
    PrependedNothing(FromKeys(keys));
    for j := 0 to |keys|
      invariant FromKeys(keys) == Prepended(messages, FromKeys(keys[j..]))
    {
      assert keys[j..][0] == keys[j] && keys[j..][1..] == keys[j + 1..];
      if |keys[j]| != 2 {
        return Err(TooManyOrFewValuesToUnpack);
      }
      PrependedTwice(messages, [Message([keys[j][0]], None)], FromKeys(keys[j + 1..]));
      messages := messages + [Message([keys[j][0]], None)];
    }
    assert keys[|keys|..] == [];
    assert messages + [] == messages;
    r := Ok(messages);
  }

  lemma PrependedNothing(r: Result<seq<Message>, Failure>)
    ensures Prepended([], r) == r
  {
    if r.Ok? { assert [] + r.value == r.value; }
  }

  lemma PrependedTwice(a: seq<Message>, b: seq<Message>, r: Result<seq<Message>, Failure>)
    ensures Prepended(a, Prepended(b, r)) == Prepended(a + b, r)
  {
    if r.Ok? { assert a + (b + r.value) == (a + b) + r.value; }
  }

  function Prepended(ms: seq<Message>, r: Result<seq<Message>, Failure>): Result<seq<Message>, Failure> {
    match r
    case Ok(rest) => Ok(ms + rest)
    case Err(e) => Err(e)
  }

  function FromEntries(entries: seq<Entry>): seq<Message> {
    seq(|entries|, i requires 0 <= i < |entries| => Message(entries[i].id, Some(entries[i].fields)))
  }

  function FromKeys(keys: seq<string>): Result<seq<Message>, Failure> {
    if keys == [] then Ok([])
    else if |keys[0]| != 2 then Err(TooManyOrFewValuesToUnpack)
    else Prepended([Message([keys[0][0]], None)], FromKeys(keys[1..]))
  }

  function Parsed(reply: seq<Item>): Result<seq<Message>, Failure> {
    if reply == [] then Ok([])
    else
      match reply[0]
      case StreamReply(_, entries) => Prepended(FromEntries(entries), Parsed(reply[1..]))
      case EntryReply(entry) =>
        match FromKeys(entry.fields)
        case Ok(ms) => Prepended(ms, Parsed(reply[1..]))
        case Err(e) => Err(e)
  }

  // The XREADGROUP reply for one stream, and the XAUTOCLAIM reply, for the same entries.
  function ReadGroupReply(name: string, entries: seq<Entry>): seq<Item> { [StreamReply(name, entries)] }

  function AutoClaimReply(entries: seq<Entry>): seq<Item> {
    seq(|entries|, i requires 0 <= i < |entries| => EntryReply(entries[i]))
  }

  /** A read hands over every entry, in order, with its id and its fields. A reclaim of messages the publisher wrote hands
      over nothing: the parser raises as soon as there is a message to reclaim. */
  lemma ReclaimHandsNothingOver(name: string, entries: seq<Entry>)
    requires forall i :: 0 <= i < |entries| ==> PUBLISHED_FIELDS <= entries[i].fields
    ensures var r := Parsed(ReadGroupReply(name, entries));
            && r.Ok? && |r.value| == |entries|
            && forall i :: 0 <= i < |entries| ==> r.value[i].id == entries[i].id && r.value[i].fields == Some(entries[i].fields)
    ensures Parsed(AutoClaimReply(entries)).Err? <==> entries != []
  {
    assert ReadGroupReply(name, entries)[1..] == [];
    assert FromEntries(entries) + [] == FromEntries(entries);
    if entries != [] {
      assert AutoClaimReply(entries)[0] == EntryReply(entries[0]);
      assert entries[0].fields[0] == PUBLISHED_FIELDS[0];
    }
  }
}
