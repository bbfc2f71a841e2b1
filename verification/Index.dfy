// The username index against the sessions it stands for.
module Index {
  import opened ChatTypes
  import opened Sessions
  import opened Handlers
  import opened Effects

  // When does a login keep the index exact? For a socket that has a session: it carries no other
  // name, and the account was marked online (so an older session is kicked) or no other session
  // holds the name. For a socket that has lost its session: nothing was kicked, because nobody was
  // marked online or nobody was bound.
  lemma LoginKeepsIndexIff(t: SessionTable, wasOnline: bool, socket: int, name: string, now: int)
    requires IndexExact(t) && name != ""
    ensures IndexExact(LoginTable(t, wasOnline, socket, name, now)) <==>
            if socket in t.live then
              (NameOn(t, socket) == "" || NameOn(t, socket) == name) &&
              (wasOnline || name !in t.index || t.index[name] == socket)
            else !wasOnline || name !in t.index
  {
    var t' := LoginTable(t, wasOnline, socket, name, now);
    var own := NameOn(t, socket);
    if own != "" && own != name {
      assert t'.index[own] == socket && t'.live[socket].username == name;
      assert !IndexSound(t');
    } else if name in t.index {
      var prior := t.index[name];
      assert t.live[prior].username == name;
      if socket in t.live {
        if !wasOnline && prior != socket {
          assert t'.live[prior].username == name && t'.index[name] == socket;
          assert !IndexComplete(t');
        }
      } else if wasOnline {
        assert t'.live[prior].username == "" && t'.index[name] == prior;
        assert !IndexSound(t');
      }
    }
  }

  // One direction survives every login that has a session, whatever the presence flag said.
  lemma LoginKeepsSound(t: SessionTable, wasOnline: bool, socket: int, name: string, now: int)
    requires IndexSound(t) && name != "" && socket in t.live
    requires NameOn(t, socket) == "" || NameOn(t, socket) == name
    ensures IndexSound(LoginTable(t, wasOnline, socket, name, now))
    ensures LoginTable(t, wasOnline, socket, name, now).index == t.index[name := socket]
    ensures LoginTable(t, wasOnline, socket, name, now).live.Keys == t.live.Keys
  {
  }

  // Dropping a session hides exactly the names that led to it, in any table: a later session that
  // took over the name of the one dropped is still found.
  lemma LookupAfterRemove(t: SessionTable, socket: int, name: string)
    ensures SocketOf(RemoveSession(t, socket), name) ==
      if SocketOf(t, name) == Some(socket) then None else SocketOf(t, name)
  {
  }

  lemma RemoveKeepsIndex(t: SessionTable, socket: int)
    ensures IndexSound(t) ==> IndexSound(RemoveSession(t, socket))
    ensures IndexExact(t) ==> IndexExact(RemoveSession(t, socket))
    ensures IndexExact(t) ==> RemoveSession(t, socket).index == t.index - {NameOn(t, socket)}
    ensures IndexSound(t) ==> t.index.Keys - {NameOn(t, socket)} <= RemoveSession(t, socket).index.Keys <= t.index.Keys
  {
    if IndexExact(t) && socket in t.live && NameOn(t, socket) == "" {
      assert "" !in t.index;
    }
  }

  // Binding a name without the two guards around it (the request acts under the session's own name,
  // the older session loses its name first) breaks the index: two one-step witnesses.
  lemma BindAloneIsUnsafe()
    ensures exists t: SessionTable, socket, name, now ::
              IndexExact(t) && socket in t.live && name != "" && NameOn(t, socket) != "" && NameOn(t, socket) != name &&
              name !in t.index && !IndexExact(LoginTable(t, false, socket, name, now))
    ensures exists t: SessionTable, socket, name, now ::
              IndexExact(t) && socket in t.live && name != "" && NameOn(t, socket) == "" &&
              !IndexExact(LoginTable(t, false, socket, name, now))
  {
    var s := Session("ann", 0, true);
    var t1 := SessionTable(map[5 := s], map["ann" := 5]);
    assert IndexExact(t1);
    var r1 := LoginTable(t1, false, 5, "bob", 0);
    assert r1.index["ann"] == 5 && r1.live[5].username == "bob";
    assert !IndexSound(r1);
    var t2 := SessionTable(map[5 := s, 6 := Session("", 0, true)], map["ann" := 5]);
    assert IndexExact(t2);
    var r2 := LoginTable(t2, false, 6, "ann", 0);
    assert 5 in r2.live && r2.live[5].username == "ann" && r2.index["ann"] == 6;
    assert !IndexComplete(r2);
  }

  // GetSessionByUsername answers as a scan of all sessions would: it finds exactly the sessions
  // with that name, and there is at most one.
  lemma LookupIsScan(t: SessionTable, name: string)
    requires IndexExact(t) && name != ""
    ensures forall s :: SocketOf(t, name) == Some(s) <==> s in t.live && t.live[s].username == name
    ensures forall s, s' ::
      s in t.live && s' in t.live && t.live[s].username == name && t.live[s'].username == name ==> s == s'
  {
  }

  lemma FoundIsLookup(live: map<int, Session>, s: int, name: string)
    requires s in live && live[s].username == name
    ensures forall t: SessionTable {:trigger IndexExact(t)} :: IndexExact(t) && t.live == live && name != "" ==>
      SocketOf(t, name) == Some(s)
  {
    forall t: SessionTable {:trigger IndexExact(t)} | IndexExact(t) && t.live == live && name != ""
      ensures SocketOf(t, name) == Some(s)
    {
      LookupIsScan(t, name);
      assert s in t.live && t.live[s].username == name;
    }
  }

  // The loop Server::GetSessionByUsername falls back on when there is no session manager.
  method ScanByUsername(live: map<int, Session>, order: seq<int>, name: string) returns (r: Option<int>)
    requires (forall k :: 0 <= k < |order| ==> order[k] in live) && forall s :: s in live ==> s in order
    ensures r.Some? ==> r.value in live && live[r.value].username == name
    ensures r.None? ==> forall s :: s in live ==> live[s].username != name
    ensures forall t: SessionTable {:trigger IndexExact(t)} :: IndexExact(t) && t.live == live && name != "" ==>
      r == SocketOf(t, name)
  {
    var i := 0;
    while i < |order|
      invariant 0 <= i <= |order|
      invariant forall k :: 0 <= k < i ==> live[order[k]].username != name
    {
      if live[order[i]].username == name {
        r := Some(order[i]);
        FoundIsLookup(live, order[i], name);
        return;
      }
      i := i + 1;
    }
    return None;
  }

  // GetOnlineUserCount counts the logged-in sessions.
  lemma OnlineCount(t: SessionTable)
    requires IndexExact(t)
    ensures |t.index| == |set s | s in t.live && t.live[s].username != ""|
  {
    var sockets := set s | s in t.live && t.live[s].username != "";
    var image := set u | u in t.index :: t.index[u];
    assert image == sockets by {
      forall s | s in sockets ensures s in image { assert t.live[s].username in t.index; }
    }
    InjectiveImage(t.index);
    assert t.index.Values == image;
  }

  lemma {:induction false} InjectiveImage(m: map<string, int>)
    requires forall u, v :: u in m && v in m && u != v ==> m[u] != m[v]
    ensures |m.Values| == |m|
    decreases |m|
  {
    if m != map[] {
      var u :| u in m;
      var rest := m - {u};
      InjectiveImage(rest);
      assert forall v :: v in m && v != u ==> v in rest && rest[v] == m[v];
      assert m.Values == rest.Values + {m[u]} by {
        forall x | x in m.Values ensures x in rest.Values + {m[u]} {
          var v :| v in m && m[v] == x;
          assert v == u || (v in rest && rest[v] == x);
        }
      }
      assert m[u] !in rest.Values;
      assert m.Keys == rest.Keys + {u};
      assert |m| == |m.Keys| && |rest| == |rest.Keys|;
    }
  }
}
