// Facts about the message queries: the unread query, its ORDER BY, and what ids a table holds.
module MessageTable {
  import opened ChatTypes
  import opened Tables

  lemma SameIdSameRow(messages: seq<Message>, a: Message, b: Message)
    requires Ascending(messages) && a in messages && b in messages && a.id == b.id
    ensures a == b
  {
    var i :| 0 <= i < |messages| && messages[i] == a;
    var j :| 0 <= j < |messages| && messages[j] == b;
    assert i == j;
  }

  // The unread query returns exactly the unread rows of its receiver.
  lemma {:induction false} UnreadRowsAre(users: seq<User>, messages: seq<Message>, receiver: UserId)
    ensures forall m :: m in UnreadRows(users, messages, receiver) <==> m in messages && IsUnreadFor(users, m, receiver)
  {
    if messages != [] {
      var before := messages[..|messages| - 1];
      UnreadRowsAre(users, before, receiver);
      assert messages == before + [messages[|messages| - 1]];
    }
  }

  ghost predicate SortedByTime(rows: seq<Message>) {
    forall i, j :: 0 <= i < j < |rows| ==> rows[i].sendTime <= rows[j].sendTime
  }

  lemma {:induction false} InsertKeeps(rows: seq<Message>, m: Message)
    ensures multiset(InsertByTime(rows, m)) == multiset(rows) + multiset{m}
  {
    if rows != [] && rows[|rows| - 1].sendTime > m.sendTime {
      InsertKeeps(rows[..|rows| - 1], m);
      assert rows == rows[..|rows| - 1] + [rows[|rows| - 1]];
    }
  }

  lemma InsertedIn(rows: seq<Message>, m: Message, x: Message)
    requires x in InsertByTime(rows, m)
    ensures x == m || x in rows
  {
    InsertKeeps(rows, m);
    assert x in multiset(InsertByTime(rows, m));
  }

  lemma {:induction false} InsertSorts(rows: seq<Message>, m: Message)
    requires SortedByTime(rows)
    ensures SortedByTime(InsertByTime(rows, m))
  {
    if rows != [] && rows[|rows| - 1].sendTime > m.sendTime {
      var before := rows[..|rows| - 1];
      var ins := InsertByTime(before, m);
      InsertSorts(before, m);
      forall k | 0 <= k < |ins| ensures ins[k].sendTime <= rows[|rows| - 1].sendTime {
        InsertedIn(before, m, ins[k]);
      }
    }
  }

  // ORDER BY keeps the rows and sorts them.
  lemma {:induction false} OrderSorts(rows: seq<Message>)
    ensures SortedByTime(OrderBySendTime(rows))
    ensures multiset(OrderBySendTime(rows)) == multiset(rows)
  {
    if rows != [] {
      var before := rows[..|rows| - 1];
      OrderSorts(before);
      InsertSorts(OrderBySendTime(before), rows[|rows| - 1]);
      InsertKeeps(OrderBySendTime(before), rows[|rows| - 1]);
      assert rows == before + [rows[|rows| - 1]];
    }
  }

  ghost predicate HasUnread(users: seq<User>, messages: seq<Message>, receiver: UserId, id: nat) {
    exists m :: m in messages && m.id == id && IsUnreadFor(users, m, receiver)
  }

  ghost function UnreadWithId(db: Db, receiver: UserId, id: nat): nat {
    if HasUnread(db.users, db.messages, receiver, id) then 1 else 0
  }

  // How many rows have this id.
  ghost function IdCount(rows: seq<Message>, id: nat): nat {
    if rows == [] then 0
    else IdCount(rows[..|rows| - 1], id) + if rows[|rows| - 1].id == id then 1 else 0
  }

  lemma {:induction false} IdCountInsert(rows: seq<Message>, m: Message, id: nat)
    ensures IdCount(InsertByTime(rows, m), id) == IdCount(rows, id) + if m.id == id then 1 else 0
  {
    if rows == [] || rows[|rows| - 1].sendTime <= m.sendTime {
      assert (rows + [m])[..|rows|] == rows;
    } else {
      var before := rows[..|rows| - 1];
      IdCountInsert(before, m, id);
      var ins := InsertByTime(before, m);
      assert (ins + [rows[|rows| - 1]])[..|ins|] == ins;
    }
  }

  lemma {:induction false} IdCountOrder(rows: seq<Message>, id: nat)
    ensures IdCount(OrderBySendTime(rows), id) == IdCount(rows, id)
  {
    if rows != [] {
      IdCountOrder(rows[..|rows| - 1], id);
      IdCountInsert(OrderBySendTime(rows[..|rows| - 1]), rows[|rows| - 1], id);
    }
  }

  lemma {:induction false} IdCountAppend(a: seq<Message>, b: seq<Message>, id: nat)
    ensures IdCount(a + b, id) == IdCount(a, id) + IdCount(b, id)
  {
    if b == [] {
      assert a + b == a;
    } else {
      var before := b[..|b| - 1];
      assert (a + b)[..|a + b| - 1] == a + before;
      IdCountAppend(a, before, id);
    }
  }

  lemma {:induction false} IdCountUnread(users: seq<User>, messages: seq<Message>, receiver: UserId, id: nat)
    requires Ascending(messages)
    ensures IdCount(UnreadRows(users, messages, receiver), id) ==
            if HasUnread(users, messages, receiver, id) then 1 else 0
  {
    if messages != [] {
      var before := messages[..|messages| - 1];
      var last := messages[|messages| - 1];
      IdCountUnread(users, before, receiver, id);
      assert messages == before + [last];
      IdCountAppend(UnreadRows(users, before, receiver), if IsUnreadFor(users, last, receiver) then [last] else [], id);
      assert IdCount([last], id) == if last.id == id then 1 else 0;
      if last.id == id {
        assert forall m :: m in before ==> m.id < id;
      }
    }
  }

  // The ordered unread rows: exactly the unread ones, sorted, each once.
  lemma UnreadMessagesAre(db: Db, receiver: UserId)
    ensures forall m :: m in UnreadMessages(db, receiver) <==> m in db.messages && IsUnreadFor(db.users, m, receiver)
    ensures SortedByTime(UnreadMessages(db, receiver))
    ensures Ascending(db.messages) ==>
      forall id: nat :: IdCount(UnreadMessages(db, receiver), id) == UnreadWithId(db, receiver, id)
  {
    var rows := UnreadRows(db.users, db.messages, receiver);
    UnreadRowsAre(db.users, db.messages, receiver);
    OrderSorts(rows);
    forall m ensures m in OrderBySendTime(rows) <==> m in rows {
      assert m in multiset(OrderBySendTime(rows)) <==> m in multiset(rows);
    }
    if Ascending(db.messages) {
      forall id: nat ensures IdCount(OrderBySendTime(rows), id) == UnreadWithId(db, receiver, id) {
        IdCountOrder(rows, id);
        IdCountUnread(db.users, db.messages, receiver, id);
      }
    }
  }

  // Deleting a pair's messages removes exactly those, in both directions.
  lemma {:induction false} DeleteBetweenIs(messages: seq<Message>, a: UserId, b: UserId)
    ensures forall m :: m in DeleteBetween(messages, a, b) <==> m in messages && !Between(m, a, b)
    ensures Ascending(messages) ==> Ascending(DeleteBetween(messages, a, b))
  {
    if messages != [] {
      var before := messages[..|messages| - 1];
      var last := messages[|messages| - 1];
      DeleteBetweenIs(before, a, b);
      assert messages == before + [last];
      if Ascending(messages) {
        var kept := DeleteBetween(before, a, b);
        forall i | 0 <= i < |kept| ensures kept[i].id < last.id {
          assert kept[i] in before;
        }
      }
    }
  }

  // A stored message has an id of its own.
  lemma StoreKeepsOk(db: Db, sender: UserId, receiver: UserId, content: string, now: int, sends: nat)
    requires MessagesOk(db) && sender < |db.users| && receiver < |db.users|
    ensures MessagesOk(StoreMessage(db, sender, receiver, content, now, sends))
    ensures forall m :: m in db.messages ==> m.id != db.nextMessageId
  {
    var db' := StoreMessage(db, sender, receiver, content, now, sends);
    forall i, j | 0 <= i < j < |db'.messages| ensures db'.messages[i].id < db'.messages[j].id {
      assert db'.messages[i] in db.messages;
    }
  }
}
