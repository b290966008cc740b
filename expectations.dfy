/** The per-chat "what is the bot waiting for" map: a module-level dictionary
    from chat id to an optional expectation record. */
module Expectations {
  import opened Wrappers

  /** The `"expectation"` values the handlers store. */
  datatype Kind = ExpectingToken | ExpectingTimeZone | RenamePayee | EditNotes | SetTags | AmazonExport

  /** The dictionary a handler stores: what it waits for, the prompt message,
      and the transaction it is about when there is one. */
  datatype Expectation = Expectation(kind: Kind, msgId: int, txId: Option<int>)

  type Table = map<int, Option<Expectation>>

  /** `expectations.get(chat_id, None)`. */
  function Lookup(m: Table, chatId: int): (r: Option<Expectation>)
    ensures chatId !in m ==> r.None?
    ensures chatId in m ==> r == m[chatId]
  {
    if chatId in m then m[chatId] else None
  }

  /** What `clear_expectation` does to the table and returns: a KeyError for a
      chat that has no entry, otherwise the previous value, with the entry kept
      and set to None. */
  function Cleared(m: Table, chatId: int): (r: (Result<Option<Expectation>, Error>, Table))
    ensures chatId !in m <==> r.0 == Failure(KeyError)
    ensures chatId !in m ==> r.1 == m
    ensures chatId in m ==> r.0 == Success(m[chatId]) && r.1 == m[chatId := None]
  {
    if chatId in m then (Success(m[chatId]), m[chatId := None]) else (Failure(KeyError), m)
  }

  /** After a set, a get of that chat returns what was set and every other chat
      is unchanged; setting None reads back as None. */
  lemma GetAfterSet(m: Table, c: int, e: Option<Expectation>, d: int)
    ensures Lookup(m[c := e], c) == e
    ensures d != c ==> Lookup(m[c := e], d) == Lookup(m, d)
    ensures e.None? ==> Lookup(m[c := e], c).None?
  {
  }

  /** A clear that succeeded leaves the key present, so a second clear returns
      None without error and changes nothing more. */
  lemma {:induction false} ClearTwice(m: Table, c: int)
    requires c in m
    ensures Cleared(Cleared(m, c).1, c).0 == Success(None)
    ensures Cleared(Cleared(m, c).1, c).1 == Cleared(m, c).1
    ensures Lookup(Cleared(m, c).1, c).None?
  {
    var m1 := Cleared(m, c).1;
    assert m1 == m[c := None];
    assert c in m1 && m1[c] == None;
    assert m1[c := None] == m1;
  }

  /** A chat seen only through `set_expectation(c, None)` can be cleared, while a
      chat never set cannot. */
  lemma ClearNeedsPriorSet(m: Table, c: int)
    ensures Cleared(m[c := None], c).0 == Success(None)
    ensures c !in m ==> Cleared(m, c).0.Failure?
  {
  }

  class Expectations {
    var entries: Table

    constructor()
      ensures entries == map[]
    {
      entries := map[];
    }

    method Get(chatId: int) returns (r: Option<Expectation>)
      ensures r == Lookup(entries, chatId)
      ensures chatId !in entries ==> r.None?
    {
      if chatId in entries {
        r := entries[chatId];
      } else {
        r := None;
      }
    }

    method Set(chatId: int, e: Option<Expectation>)
      modifies this
      ensures entries == old(entries)[chatId := e]
    {
      entries := entries[chatId := e];
    }

    method Clear(chatId: int) returns (r: Result<Option<Expectation>, Error>)
      modifies this
      ensures (r, entries) == Cleared(old(entries), chatId)
    {
      if chatId !in entries {
        return Failure(KeyError);
      }
      r := Success(entries[chatId]);
      entries := entries[chatId := None];
    }
  }
}
