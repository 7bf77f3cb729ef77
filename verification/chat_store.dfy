/** The conversation store of build/background.js. `chrome.storage.local`
    holds one transcript per chat id and a `chatList` directory of
    `{chatId, title}` entries in creation order; here the two are the fields
    of one `ChatStore` object. The directory operations are stated as
    functions on the entry list and proved about separately. */
module Conversations {
  import opened Wrappers
  import opened Dispatcher

  datatype Entry = Entry(chatId: string, title: string)

  /** How a promise-returning store operation settles. */
  datatype Status = Resolved | Rejected(message: string)

  const CHAT_NOT_FOUND: string := "Chat not found"

  /** No two directory entries share an id. */
  ghost predicate Distinct(list: seq<Entry>) {
    forall i, j :: 0 <= i < j < |list| ==> list[i].chatId != list[j].chatId
  }

  ghost function Ids(list: seq<Entry>): set<string> {
    set e | e in list :: e.chatId
  }

  /** `chatList.findIndex((chat) => chat.chatId === chatId)` */
  function FindIndex(list: seq<Entry>, chatId: string): (k: int)
    ensures k == -1 <==> forall i :: 0 <= i < |list| ==> list[i].chatId != chatId
    ensures k != -1 ==> 0 <= k < |list| && list[k].chatId == chatId
    ensures k != -1 ==> forall i :: 0 <= i < k ==> list[i].chatId != chatId
    decreases |list|
  {
    if |list| == 0 then -1
    else if list[0].chatId == chatId then 0
    else
      var k := FindIndex(list[1..], chatId);
      if k == -1 then -1 else k + 1
  }

  /** The title a directory lists for an id, if any. */
  function TitleOf(list: seq<Entry>, chatId: string): (t: Option<string>)
    ensures t.None? <==> chatId !in Ids(list)
  {
    var k := FindIndex(list, chatId);
    if k == -1 then
      assert forall e :: e in list ==> e.chatId != chatId;
      None
    else
      assert list[k] in list;
      Some(list[k].title)
  }

  /** The directory after `storeChatHistory`: a new id is pushed at the end,
      a known one has its title replaced in place. */
  function Upserted(list: seq<Entry>, chatId: string, title: string): (r: seq<Entry>)
    ensures chatId !in Ids(list) ==> r == list + [Entry(chatId, title)]
    ensures chatId in Ids(list) ==> |r| == |list|
    ensures forall i :: 0 <= i < |list| ==> r[i].chatId == list[i].chatId
    ensures forall i :: 0 <= i < |list| && i != FindIndex(list, chatId) ==> r[i] == list[i]
  {
    var k := FindIndex(list, chatId);
    if k == -1 then
      assert forall e :: e in list ==> e.chatId != chatId;
      list + [Entry(chatId, title)]
    else
      list[k := list[k].(title := title)]
  }

  /** The directory after `deleteChat`: every entry with that id filtered
      out, the others kept in order. */
  function Removed(list: seq<Entry>, chatId: string): (r: seq<Entry>)
    ensures |r| <= |list|
    ensures forall e {:trigger e in r} :: e in r <==> e in list && e.chatId != chatId
    decreases |list|
  {
    if |list| == 0 then []
    else
      assert list == [list[0]] + list[1..];
      (if list[0].chatId == chatId then [] else [list[0]]) + Removed(list[1..], chatId)
  }

  // ---------------------------------------------------------------------
  // Lookups through the directory operations.

  /** After an upsert the id lists the new title and every other id keeps
      its title. */
  lemma UpsertedTitle(list: seq<Entry>, chatId: string, title: string, other: string)
    ensures TitleOf(Upserted(list, chatId, title), other) ==
              if other == chatId then Some(title) else TitleOf(list, other)
  {
    var r := Upserted(list, chatId, title);
    var k := FindIndex(list, chatId);
    var m := FindIndex(list, other);
    if k == -1 {
      assert r[|list|] == Entry(chatId, title);
      if other != chatId && m == -1 {
        assert forall i :: 0 <= i < |r| ==> r[i].chatId != other;
      }
    } else if other == chatId {
      assert FindIndex(r, other) == k;
    } else if m != -1 {
      assert FindIndex(r, other) == m;
    }
  }

  /** An upsert keeps the ids distinct and adds exactly its own id. */
  lemma UpsertedIds(list: seq<Entry>, chatId: string, title: string)
    requires Distinct(list)
    ensures Distinct(Upserted(list, chatId, title))
    ensures Ids(Upserted(list, chatId, title)) == Ids(list) + {chatId}
  {
    var r := Upserted(list, chatId, title);
    var k := FindIndex(list, chatId);
    forall x | x in Ids(r) ensures x in Ids(list) + {chatId} {
      var i :| 0 <= i < |r| && r[i].chatId == x;
      if i < |list| { assert list[i] in list; }
    }
    forall x | x in Ids(list) + {chatId} ensures x in Ids(r) {
      if x == chatId {
        if k == -1 { assert r[|list|] in r; } else { assert r[k] in r; }
      } else {
        var e :| e in list && e.chatId == x;
        var i :| 0 <= i < |list| && list[i] == e;
        assert r[i] in r;
      }
    }
  }

  /** Storing the same title twice is storing it once. */
  lemma UpsertedIdempotent(list: seq<Entry>, chatId: string, title: string)
    ensures Upserted(Upserted(list, chatId, title), chatId, title) == Upserted(list, chatId, title)
  {
    var r := Upserted(list, chatId, title);
    var k := FindIndex(list, chatId);
    var k2 := FindIndex(r, chatId);
    if k == -1 {
      assert r[|list|].chatId == chatId;
      assert forall i :: 0 <= i < |list| ==> r[i].chatId != chatId;
      assert k2 == |list|;
    } else {
      assert r[k].chatId == chatId;
      assert k2 == k;
    }
  }

  /** After a delete the id is unlisted and every other id keeps its title. */
  lemma {:induction false} RemovedTitle(list: seq<Entry>, chatId: string, other: string)
    ensures TitleOf(Removed(list, chatId), other) ==
              if other == chatId then None else TitleOf(list, other)
    decreases |list|
  {
    if |list| > 0 && other != chatId {
      var rest := Removed(list[1..], chatId);
      RemovedTitle(list[1..], chatId, other);
      if list[0].chatId == chatId {
        assert Removed(list, chatId) == rest;
        assert FindIndex(list, other) == (if FindIndex(list[1..], other) == -1 then -1 else FindIndex(list[1..], other) + 1);
      } else {
        assert Removed(list, chatId) == [list[0]] + rest;
        assert ([list[0]] + rest)[1..] == rest;
      }
    }
  }

  /** The first entry's id does not recur in a distinct list. */
  lemma DistinctHead(list: seq<Entry>)
    requires Distinct(list) && |list| > 0
    ensures Distinct(list[1..])
    ensures list[0].chatId !in Ids(list[1..])
  {
    forall e | e in list[1..] ensures e.chatId != list[0].chatId {
      var m :| 0 <= m < |list| - 1 && list[1..][m] == e;
      assert list[m + 1] == e;
    }
  }

  /** A delete takes exactly its own id away. */
  lemma RemovedIds(list: seq<Entry>, chatId: string)
    ensures Ids(Removed(list, chatId)) == Ids(list) - {chatId}
  {
  }

  /** A delete keeps the ids distinct. */
  lemma {:induction false} RemovedDistinct(list: seq<Entry>, chatId: string)
    requires Distinct(list)
    ensures Distinct(Removed(list, chatId))
    decreases |list|
  {
    if |list| > 0 {
      var rest := Removed(list[1..], chatId);
      DistinctHead(list);
      RemovedDistinct(list[1..], chatId);
      if list[0].chatId != chatId {
        var r := [list[0]] + rest;
        forall i, j | 0 <= i < j < |r| ensures r[i].chatId != r[j].chatId {
          if i == 0 {
            assert r[j] in rest;
          } else {
            assert r[i] == rest[i - 1] && r[j] == rest[j - 1];
          }
        }
      }
    }
  }

  /** Deleting twice is deleting once. */
  lemma {:induction false} RemovedIdempotent(list: seq<Entry>, chatId: string)
    ensures Removed(Removed(list, chatId), chatId) == Removed(list, chatId)
    decreases |list|
  {
    if |list| > 0 {
      RemovedIdempotent(list[1..], chatId);
      var rest := Removed(list[1..], chatId);
      if list[0].chatId != chatId {
        assert Removed(list, chatId) == [list[0]] + rest;
        assert ([list[0]] + rest)[1..] == rest;
      } else {
        assert Removed(list, chatId) == rest;
      }
    }
  }

  /** Filtering out an id no entry carries changes nothing. */
  lemma {:induction false} RemovedAbsent(list: seq<Entry>, chatId: string)
    requires forall i :: 0 <= i < |list| ==> list[i].chatId != chatId
    ensures Removed(list, chatId) == list
    decreases |list|
  {
    if |list| > 0 {
      RemovedAbsent(list[1..], chatId);
      assert list == [list[0]] + list[1..];
    }
  }

  /** Filtering distributes over concatenation. */
  lemma {:induction false} RemovedAppend(a: seq<Entry>, b: seq<Entry>, chatId: string)
    ensures Removed(a + b, chatId) == Removed(a, chatId) + Removed(b, chatId)
    decreases |a|
  {
    if |a| == 0 {
      assert a + b == b;
    } else {
      var head: seq<Entry> := if a[0].chatId == chatId then [] else [a[0]];
      var rest := Removed(a[1..], chatId);
      assert Removed(a + b, chatId) == head + Removed(a[1..] + b, chatId) by {
        assert (a + b)[0] == a[0];
        assert (a + b)[1..] == a[1..] + b;
      }
      assert Removed(a[1..] + b, chatId) == rest + Removed(b, chatId) by {
        RemovedAppend(a[1..], b, chatId);
      }
      assert head + (rest + Removed(b, chatId)) == (head + rest) + Removed(b, chatId);
    }
  }

  /** Deleting a chat that was just created restores the directory. */
  lemma RemovedUndoesNewEntry(list: seq<Entry>, chatId: string, title: string)
    requires chatId !in Ids(list)
    ensures Removed(Upserted(list, chatId, title), chatId) == list
  {
    var none: seq<Entry> := [];
    assert forall i :: 0 <= i < |list| ==> list[i] in list;
    RemovedAbsent(list, chatId);
    RemovedAppend(list, [Entry(chatId, title)], chatId);
    assert Removed([Entry(chatId, title)], chatId) == none + Removed(none, chatId);
    assert list + none == list;
  }

  // ---------------------------------------------------------------------
  // The store itself.

  class ChatStore {
    /** `chrome.storage.local[chatId]` for every stored chat. */
    var transcripts: map<string, seq<Message>>
    /** `chrome.storage.local.chatList` */
    var directory: seq<Entry>

    /** Every transcript is listed once in the directory, and nothing else is. */
    ghost predicate Valid()
      reads this
    {
      Distinct(directory) && transcripts.Keys == Ids(directory)
    }

    constructor ()
      ensures transcripts == map[] && directory == []
      ensures Valid()
    {
      transcripts := map[];
      directory := [];
    }

    /** `storeChatHistory`: write the transcript, then push a new directory
        entry or retitle the existing one. */
    method StoreChatHistory(chatId: string, messages: seq<Message>, chatTitle: string)
      requires Valid()
      modifies this
      ensures Valid()
      ensures transcripts == old(transcripts)[chatId := messages]
      ensures directory == Upserted(old(directory), chatId, chatTitle)
    {
      transcripts := transcripts[chatId := messages];
      UpsertedIds(directory, chatId, chatTitle);
      var chatIndex := FindIndex(directory, chatId);
      if chatIndex == -1 {
        directory := directory + [Entry(chatId, chatTitle)];
      } else {
        directory := directory[chatIndex := directory[chatIndex].(title := chatTitle)];
      }
    }

    /** `getChatHistory`: the stored transcript, or an empty one. */
    method GetChatHistory(chatId: string) returns (messages: seq<Message>)
      ensures chatId in transcripts ==> messages == transcripts[chatId]
      ensures chatId !in transcripts ==> messages == []
    {
      if chatId in transcripts {
        messages := transcripts[chatId];
      } else {
        messages := [];
      }
    }

    /** `getChatList`: the directory in creation order. */
    method GetChatList() returns (list: seq<Entry>)
      ensures list == directory
    {
      list := directory;
    }

    /** `renameChat`: retitle a listed chat; an unlisted id rejects with
        `Chat not found` and writes nothing. */
    method RenameChat(chatId: string, newTitle: string) returns (status: Status)
      requires Valid()
      modifies this
      ensures Valid()
      ensures status.Rejected? <==> chatId !in old(Ids(directory))
      ensures status.Rejected? ==> status.message == CHAT_NOT_FOUND && directory == old(directory)
      ensures status.Resolved? ==> directory == Upserted(old(directory), chatId, newTitle)
      ensures transcripts == old(transcripts)
    {
      var chatIndex := FindIndex(directory, chatId);
      if chatIndex != -1 {
        UpsertedIds(directory, chatId, newTitle);
        directory := directory[chatIndex := directory[chatIndex].(title := newTitle)];
        status := Resolved;
      } else {
        assert forall e :: e in directory ==> e.chatId != chatId;
        status := Rejected(CHAT_NOT_FOUND);
      }
    }

    /** `deleteChat`: remove the transcript, then filter the id out of the
        directory. */
    method DeleteChat(chatId: string)
      requires Valid()
      modifies this
      ensures Valid()
      ensures transcripts == old(transcripts) - {chatId}
      ensures directory == Removed(old(directory), chatId)
    {
      transcripts := transcripts - {chatId};
      RemovedIds(directory, chatId);
      RemovedDistinct(directory, chatId);
      directory := Removed(directory, chatId);
    }
  }
}
