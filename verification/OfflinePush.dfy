// PushOfflineMessages, exactly: what the loop sends, what it marks read, and when it loses messages.
module OfflinePush {
  import opened ChatTypes
  import opened Tables
  import opened Sessions
  import opened Handlers
  import opened Effects
  import opened MessageTable

  // How often message `id` was forwarded with success.
  ghost function Forwards(log: seq<Sent>, id: nat): nat {
    if log == [] then 0
    else Forwards(log[..|log| - 1], id) + if ForwardOk(log[|log| - 1], id) then 1 else 0
  }

  predicate ForwardOk(e: Sent, id: nat) { e.ok && e.payload.ForwardMsg? && e.payload.id == id }

  lemma ForwardsStep(log: seq<Sent>, e: Sent, id: nat)
    ensures Forwards(log + [e], id) == Forwards(log, id) + if ForwardOk(e, id) then 1 else 0
  {
    assert (log + [e])[..|log|] == log;
  }

  lemma {:induction false} ForwardsQuiet(log: seq<Sent>, log': seq<Sent>, id: nat)
    requires QuietGrowth(log, log')
    ensures Forwards(log', id) == Forwards(log, id)
    decreases |log'|
  {
    if |log'| == |log| {
      assert log' == log;
    } else {
      var before := log'[..|log'| - 1];
      assert before[..|log|] == log;
      ForwardsQuiet(log, before, id);
    }
  }

  // ---- the loop ----

  // Does the j-th forward of a push that starts in `w` arrive? Each row makes two sends.
  ghost predicate Arrives(w: World, socket: int, j: nat, env: Env) {
    socket in w.net.open && socket !in w.net.shut && env.carries(|w.net.log| + 2 * j)
  }

  // Some forward on the pair (sender, receiver) arrives.
  ghost predicate PairArrives(w: World, socket: int, rows: seq<Message>, sender: UserId, receiver: UserId, env: Env) {
    exists j :: 0 <= j < |rows| && Arrives(w, socket, j, env) && rows[j].sender == sender &&
      rows[j].receiver == receiver
  }

  // The receiver of every row is bound to `socket`.
  ghost predicate RowsReach(w: World, socket: int, rows: seq<Message>) {
    forall j :: 0 <= j < |rows| ==> SocketOf(w.table, NameOf(w.db.users, rows[j].receiver)) == Some(socket)
  }

  // The notice that follows the forward of m, as the k-th send.
  function NoticeAt(w: World, socket: int, m: Message, k: nat, env: Env): Sent {
    Sent(socket, MsgNotify(NameOf(w.db.users, m.sender)), socket in w.net.open && socket !in w.net.shut &&
      env.carries(k))
  }

  lemma PushRowExact(w: World, socket: int, m: Message, env: Env)
    requires SocketOf(w.table, NameOf(w.db.users, m.receiver)) == Some(socket)
    ensures var w' := PushRow(w, socket, m, env);
            var ok := Arrives(w, socket, 0, env);
            && w'.table == w.table && w'.db == w.db.(messages := w'.db.messages)
            && w'.db.messages == (if ok then MarkRead(w.db.messages, m.sender, m.receiver) else w.db.messages)
            && w'.net.open == w.net.open && w'.net.shut == w.net.shut
            && |w'.net.log| == |w.net.log| + 2 && w'.net.log[..|w.net.log|] == w.net.log
            && w'.net.log[|w.net.log|] == Sent(socket, OfflinePayload(w.db.users, m), ok)
            && w'.net.log[|w.net.log| + 1] == NoticeAt(w, socket, m, |w.net.log| + 1, env)
  {
  }

  lemma PairArrivesStep(w: World, w1: World, socket: int, rows: seq<Message>, s: UserId, r: UserId, env: Env)
    requires rows != [] && w1.net.open == w.net.open && w1.net.shut == w.net.shut && |w1.net.log| == |w.net.log| + 2
    ensures PairArrives(w, socket, rows, s, r, env) <==>
            (Arrives(w, socket, 0, env) && rows[0].sender == s && rows[0].receiver == r) ||
            PairArrives(w1, socket, rows[1..], s, r, env)
  {
    forall j | 0 <= j < |rows| - 1 ensures Arrives(w1, socket, j, env) <==> Arrives(w, socket, j + 1, env) {
      assert |w1.net.log| + 2 * j == |w.net.log| + 2 * (j + 1);
    }
    if PairArrives(w, socket, rows, s, r, env) {
      var j :| 0 <= j < |rows| && Arrives(w, socket, j, env) && rows[j].sender == s && rows[j].receiver == r;
      if j > 0 { assert Arrives(w1, socket, j - 1, env) && rows[1..][j - 1] == rows[j]; }
    }
    if PairArrives(w1, socket, rows[1..], s, r, env) {
      var j :| 0 <= j < |rows[1..]| && Arrives(w1, socket, j, env) && rows[1..][j].sender == s &&
        rows[1..][j].receiver == r;
      assert Arrives(w, socket, j + 1, env) && rows[j + 1] == rows[1..][j];
    }
  }

  // The log after the loop: row j at position 2j with its own outcome.
  lemma {:induction false} PushRowsLog(w: World, socket: int, rows: seq<Message>, env: Env)
    requires RowsReach(w, socket, rows)
    ensures var w' := PushRows(w, socket, rows, env);
            var n := |w.net.log|;
            && w'.table == w.table && w'.net.open == w.net.open && w'.net.shut == w.net.shut
            && |w'.net.log| == n + 2 * |rows| && w'.net.log[..n] == w.net.log
            && (forall j :: 0 <= j < |rows| ==>
                  w'.net.log[n + 2 * j] ==
                  Sent(socket, OfflinePayload(w.db.users, rows[j]), Arrives(w, socket, j, env)))
    decreases |rows|
  {
    if rows != [] {
      var w1 := PushRow(w, socket, rows[0], env);
      PushRowExact(w, socket, rows[0], env);
      PushRowsLog(w1, socket, rows[1..], env);
      var w' := PushRows(w, socket, rows, env);
      var n := |w.net.log|;
      assert w' == PushRows(w1, socket, rows[1..], env);
      assert w'.net.log[..n] == w'.net.log[..n + 2][..n];
      forall j | 0 <= j < |rows|
        ensures w'.net.log[n + 2 * j] == Sent(socket, OfflinePayload(w.db.users, rows[j]), Arrives(w, socket, j, env))
      {
        if j == 0 {
          assert w'.net.log[n] == w'.net.log[..n + 2][n];
        } else {
          assert n + 2 * j == |w1.net.log| + 2 * (j - 1);
          assert rows[j] == rows[1..][j - 1];
        }
      }
    }
  }

  // Behind each forward its notice, whatever became of the forward.
  lemma {:induction false} PushRowsNotices(w: World, socket: int, rows: seq<Message>, env: Env)
    requires RowsReach(w, socket, rows)
    ensures var w', n := PushRows(w, socket, rows, env), |w.net.log|;
            && |w'.net.log| == n + 2 * |rows|
            && forall j :: 0 <= j < |rows| ==>
                 w'.net.log[n + 2 * j + 1] == NoticeAt(w, socket, rows[j], n + 2 * j + 1, env)
    decreases |rows|
  {
    if rows != [] {
      var w1 := PushRow(w, socket, rows[0], env);
      PushRowExact(w, socket, rows[0], env);
      PushRowsLog(w1, socket, rows[1..], env);
      PushRowsNotices(w1, socket, rows[1..], env);
      var w', n := PushRows(w1, socket, rows[1..], env), |w.net.log|;
      forall j | 0 <= j < |rows|
        ensures w'.net.log[n + 2 * j + 1] == NoticeAt(w, socket, rows[j], n + 2 * j + 1, env)
      {
        if j == 0 {
          assert w'.net.log[n + 1] == w'.net.log[..n + 2][n + 1];
        } else {
          assert n + 2 * j + 1 == |w1.net.log| + 2 * (j - 1) + 1;
          assert rows[j] == rows[1..][j - 1];
        }
      }
    }
  }

  // The read flags after the loop.
  lemma {:induction false} PushRowsMarks(w: World, socket: int, rows: seq<Message>, env: Env)
    requires RowsReach(w, socket, rows)
    ensures var w' := PushRows(w, socket, rows, env);
            && w'.db == w.db.(messages := w'.db.messages) && |w'.db.messages| == |w.db.messages|
            && (forall i :: 0 <= i < |w.db.messages| ==>
                  var m := w.db.messages[i];
                  w'.db.messages[i] ==
                  if PairArrives(w, socket, rows, m.sender, m.receiver, env) then m.(isRead := true) else m)
    decreases |rows|
  {
    if rows != [] {
      var w1 := PushRow(w, socket, rows[0], env);
      PushRowExact(w, socket, rows[0], env);
      PushRowsMarks(w1, socket, rows[1..], env);
      forall i | 0 <= i < |w.db.messages|
        ensures var m := w.db.messages[i];
                PushRows(w, socket, rows, env).db.messages[i] ==
                if PairArrives(w, socket, rows, m.sender, m.receiver, env) then m.(isRead := true) else m
      {
        var m := w.db.messages[i];
        PairArrivesStep(w, w1, socket, rows, m.sender, m.receiver, env);
      }
    }
  }

  // Under any pattern of send failures: the loop marks a message read exactly when some forward on
  // its pair arrived, and logs row j at position 2j with its own outcome.
  lemma PushRowsExact(w: World, socket: int, rows: seq<Message>, env: Env)
    requires RowsReach(w, socket, rows)
    ensures var w' := PushRows(w, socket, rows, env);
            var n := |w.net.log|;
            && w'.table == w.table && w'.net.open == w.net.open && w'.net.shut == w.net.shut
            && w'.db == w.db.(messages := w'.db.messages) && |w'.db.messages| == |w.db.messages|
            && (forall i :: 0 <= i < |w.db.messages| ==>
                  var m := w.db.messages[i];
                  w'.db.messages[i] ==
                  if PairArrives(w, socket, rows, m.sender, m.receiver, env) then m.(isRead := true) else m)
            && |w'.net.log| == n + 2 * |rows| && w'.net.log[..n] == w.net.log
            && (forall j :: 0 <= j < |rows| ==>
                  w'.net.log[n + 2 * j] ==
                  Sent(socket, OfflinePayload(w.db.users, rows[j]), Arrives(w, socket, j, env)))
  {
    PushRowsLog(w, socket, rows, env);
    PushRowsMarks(w, socket, rows, env);
  }

  // A push for a bound user, started on the rows the query returned.
  ghost predicate PushReady(w: World, name: string, id: UserId, socket: int) {
    FindUser(w.db.users, name) == Some(id) && SocketOf(w.table, name) == Some(socket)
  }

  lemma PushReaches(w: World, name: string, id: UserId, socket: int)
    requires PushReady(w, name, id, socket)
    ensures RowsReach(w, socket, UnreadMessages(w.db, id))
  {
    UnreadMessagesAre(w.db, id);
    var rows := UnreadMessages(w.db, id);
    forall j | 0 <= j < |rows| ensures SocketOf(w.table, NameOf(w.db.users, rows[j].receiver)) == Some(socket) {
      assert rows[j] in rows;
    }
  }

  // After the push, the user's unread messages are exactly those of senders none of whose forwards arrived.
  lemma UnreadAfterPush(w: World, name: string, id: UserId, socket: int, env: Env)
    requires PushReady(w, name, id, socket)
    ensures var w' := PushOffline(w, name, env);
            var rows := UnreadMessages(w.db, id);
            |w'.db.messages| == |w.db.messages| &&
            forall i :: 0 <= i < |w.db.messages| && IsUnreadFor(w.db.users, w.db.messages[i], id) ==>
              (!w'.db.messages[i].isRead <==>
               forall j :: 0 <= j < |rows| && rows[j].sender == w.db.messages[i].sender ==> !Arrives(w, socket, j, env))
  {
    var rows := UnreadMessages(w.db, id);
    PushReaches(w, name, id, socket);
    UnreadMessagesAre(w.db, id);
    PushRowsExact(w, socket, rows, env);
    assert forall j :: 0 <= j < |rows| ==> rows[j] in rows;
  }

  // The forwards of a push go out in non-decreasing send_time order, whatever order the rows were stored in.
  lemma PushIsInTimeOrder(w: World, name: string, id: UserId, socket: int, env: Env)
    requires PushReady(w, name, id, socket)
    ensures var w' := PushOffline(w, name, env);
            var rows := UnreadMessages(w.db, id);
            var n := |w.net.log|;
            |w'.net.log| == n + 2 * |rows| &&
            forall i, j :: 0 <= i < j < |rows| ==>
              && w'.net.log[n + 2 * i].payload == OfflinePayload(w.db.users, rows[i])
              && w'.net.log[n + 2 * j].payload == OfflinePayload(w.db.users, rows[j])
              && rows[i].sendTime <= rows[j].sendTime
  {
    PushReaches(w, name, id, socket);
    UnreadMessagesAre(w.db, id);
    PushRowsExact(w, socket, UnreadMessages(w.db, id), env);
  }

  // Message `rows[j]` ends up read although its own forward failed.
  ghost predicate Lost(w: World, w': World, socket: int, rows: seq<Message>, j: int, env: Env)
    requires 0 <= j < |rows|
  {
    !Arrives(w, socket, j, env) && rows[j].(isRead := true) in w'.db.messages
  }

  // A push loses a message exactly when two forwards from one sender fare differently: the one that
  // arrives marks the whole pair read.
  lemma PushLosesIff(w: World, name: string, id: UserId, socket: int, env: Env)
    requires PushReady(w, name, id, socket) && Ascending(w.db.messages)
    ensures var w' := PushOffline(w, name, env);
            var rows := UnreadMessages(w.db, id);
            (forall j :: 0 <= j < |rows| ==> !Lost(w, w', socket, rows, j, env)) <==>
            (forall i, j :: 0 <= i < |rows| && 0 <= j < |rows| && rows[i].sender == rows[j].sender ==>
               (Arrives(w, socket, i, env) <==> Arrives(w, socket, j, env)))
  {
    var w' := PushOffline(w, name, env);
    var rows := UnreadMessages(w.db, id);
    PushReaches(w, name, id, socket);
    UnreadMessagesAre(w.db, id);
    PushRowsExact(w, socket, rows, env);
    forall j | 0 <= j < |rows|
      ensures rows[j].(isRead := true) in w'.db.messages <==>
        PairArrives(w, socket, rows, rows[j].sender, rows[j].receiver, env)
    {
      assert rows[j] in rows;
      var k :| 0 <= k < |w.db.messages| && w.db.messages[k] == rows[j];
      if rows[j].(isRead := true) in w'.db.messages {
        var l :| 0 <= l < |w'.db.messages| && w'.db.messages[l] == rows[j].(isRead := true);
        assert w.db.messages[l].id == w.db.messages[k].id;
        assert l == k;
      }
    }
    forall j | 0 <= j < |rows| ensures rows[j].receiver == id { assert rows[j] in rows; }
    if i, j :| 0 <= i < |rows| && 0 <= j < |rows| && rows[i].sender == rows[j].sender &&
               Arrives(w, socket, i, env) && !Arrives(w, socket, j, env) {
      assert PairArrives(w, socket, rows, rows[j].sender, rows[j].receiver, env);
      assert Lost(w, w', socket, rows, j, env);
    }
  }

  // ---- how often each message is forwarded ----

  ghost predicate Reachable(net: Net, socket: int) { socket in net.open && socket !in net.shut }

  lemma IdCountFirst(rows: seq<Message>, id: nat)
    requires rows != []
    ensures IdCount(rows, id) == IdCount(rows[1..], id) + if rows[0].id == id then 1 else 0
  {
    assert rows == [rows[0]] + rows[1..];
    IdCountAppend([rows[0]], rows[1..], id);
    assert [rows[0]][..0] == [];
  }

  lemma PushRowForwards(w: World, w1: World, socket: int, m: Message, env: Env, id: nat)
    requires SocketOf(w.table, NameOf(w.db.users, m.receiver)) == Some(socket) && w1 == PushRow(w, socket, m, env)
    ensures Forwards(w1.net.log, id) ==
            Forwards(w.net.log, id) + if m.id == id && Arrives(w, socket, 0, env) then 1 else 0
  {
    ForwardAdds(w, socket, NameOf(w.db.users, m.receiver), OfflinePayload(w.db.users, m), env, socket, id);
  }

  // One forward and its notice: one more arrival of that id, if the forward arrives.
  lemma ForwardAdds(w: World, socket: int, receiverName: string, payload: Payload, env: Env, x: int, id: nat)
    requires payload.ForwardMsg? && SocketOf(w.table, receiverName) == Some(x)
    ensures Forwards(ForwardAndNotify(w, socket, receiverName, payload, env).net.log, id) ==
            Forwards(w.net.log, id) + if Delivered(w.net, x, env) && payload.id == id then 1 else 0
  {
    var w' := ForwardAndNotify(w, socket, receiverName, payload, env);
    var n := |w.net.log|;
    assert w'.net.log == w.net.log + [w'.net.log[n]] + [w'.net.log[n + 1]];
    ForwardsStep(w.net.log, w'.net.log[n], id);
    ForwardsStep(w.net.log + [w'.net.log[n]], w'.net.log[n + 1], id);
  }

  // If the network carries them all the loop adds one success per row, or none if the socket is shut.
  lemma {:induction false} PushRowsForwards(w: World, socket: int, rows: seq<Message>, env: Env, id: nat)
    requires RowsReach(w, socket, rows) && Reliable(env, |w.net.log| + 2 * |rows|)
    ensures Forwards(PushRows(w, socket, rows, env).net.log, id) ==
            Forwards(w.net.log, id) + if Reachable(w.net, socket) then IdCount(rows, id) else 0
    decreases |rows|
  {
    if rows != [] {
      var w1 := PushRow(w, socket, rows[0], env);
      PushRowExact(w, socket, rows[0], env);
      PushRowsForwards(w1, socket, rows[1..], env, id);
      PushRowForwards(w, w1, socket, rows[0], env, id);
      IdCountFirst(rows, id);
    }
  }

  // Some row with this id has its forward arrive.
  ghost predicate IdArrives(w: World, socket: int, rows: seq<Message>, id: nat, env: Env) {
    exists j :: 0 <= j < |rows| && rows[j].id == id && Arrives(w, socket, j, env)
  }

  lemma IdArrivesLater(w: World, w1: World, socket: int, rows: seq<Message>, id: nat, env: Env)
    requires rows != [] && w1.net.open == w.net.open && w1.net.shut == w.net.shut && |w1.net.log| == |w.net.log| + 2
    requires IdArrives(w1, socket, rows[1..], id, env)
    ensures IdArrives(w, socket, rows, id, env)
  {
    var j :| 0 <= j < |rows[1..]| && rows[1..][j].id == id && Arrives(w1, socket, j, env);
    assert |w1.net.log| + 2 * j == |w.net.log| + 2 * (j + 1);
    assert rows[j + 1].id == id && Arrives(w, socket, j + 1, env);
  }

  // On any network it adds at most one arrival per row, and none without a forward that arrives.
  lemma {:induction false} PushRowsForwardsAtMost(w: World, socket: int, rows: seq<Message>, env: Env, id: nat)
    requires RowsReach(w, socket, rows)
    ensures var f, f' := Forwards(w.net.log, id), Forwards(PushRows(w, socket, rows, env).net.log, id);
            f <= f' <= f + IdCount(rows, id) && (f < f' ==> IdArrives(w, socket, rows, id, env))
    decreases |rows|
  {
    if rows != [] {
      var w1 := PushRow(w, socket, rows[0], env);
      PushRowExact(w, socket, rows[0], env);
      PushRowsForwardsAtMost(w1, socket, rows[1..], env, id);
      PushRowForwards(w, w1, socket, rows[0], env, id);
      IdCountFirst(rows, id);
      if IdArrives(w1, socket, rows[1..], id, env) { IdArrivesLater(w, w1, socket, rows, id, env); }
    }
  }
}
