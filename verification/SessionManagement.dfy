// ClientSession and SessionManager as the objects they are, proved against the session table.
module SessionManagement {
  import opened ChatTypes
  import opened Sessions
  import opened Index

  class ClientSession {
    const socket: int
    var username: string
    var lastHeartbeat: int
    var isConnected: bool

    function View(): Session reads this { Session(username, lastHeartbeat, isConnected) }

    constructor (socket: int, now: int)
      ensures this.socket == socket && View() == Session("", now, true)
    {
      this.socket := socket;
      username, lastHeartbeat, isConnected := "", now, true;
    }

    method SetUsername(name: string)
      modifies this`username
      ensures View() == old(View()).(username := name)
    {
      username := name;
    }

    method UpdateHeartbeat(now: int)
      modifies this`lastHeartbeat
      ensures View() == old(View()).(lastHeartbeat := now)
    {
      lastHeartbeat := now;
    }
  }

  class SessionManager {
    var cliSessionMap: map<int, ClientSession>
    var usernameToSocket: map<string, int>

    // Each session object is filed under its own socket, so different keys hold different objects.
    ghost predicate Valid()
      reads this, cliSessionMap.Values
    {
      forall s :: s in cliSessionMap ==> cliSessionMap[s].socket == s
    }

    ghost function View(): SessionTable
      reads this, cliSessionMap.Values
    {
      SessionTable(map s | s in cliSessionMap :: cliSessionMap[s].View(), usernameToSocket)
    }

    constructor ()
      ensures Valid() && View() == SessionTable(map[], map[]) && cliSessionMap == map[]
    {
      cliSessionMap, usernameToSocket := map[], map[];
    }

    method AddSession(socket: int, session: ClientSession)
      requires Valid() && session.socket == socket
      modifies this
      ensures Valid() && View() == Sessions.AddSession(old(View()), socket, session.View())
      ensures cliSessionMap == old(cliSessionMap)[socket := session]
    {
      cliSessionMap := cliSessionMap[socket := session];
      if session.username != "" {
        usernameToSocket := usernameToSocket[session.username := socket];
      }
    }

    method RemoveSession(socket: int)
      requires Valid()
      modifies this
      ensures Valid() && View() == Sessions.RemoveSession(old(View()), socket)
      ensures cliSessionMap == old(cliSessionMap) - {socket}
    {
      if socket in cliSessionMap {
        var name := cliSessionMap[socket].username;
        if name != "" {
          if name in usernameToSocket && usernameToSocket[name] == socket {
            usernameToSocket := usernameToSocket - {name};
          }
        }
        cliSessionMap := cliSessionMap - {socket};
      } else {
        assert cliSessionMap - {socket} == cliSessionMap;
      }
    }

    method GetSession(socket: int) returns (session: ClientSession?)
      ensures session == if socket in cliSessionMap then cliSessionMap[socket] else null
    {
      session := if socket in cliSessionMap then cliSessionMap[socket] else null;
    }

    // The session returned is the one on the socket the table answers with.
    method GetSessionByUsername(name: string) returns (session: ClientSession?)
      requires Valid()
      ensures SocketOf(View(), name).None? <==> session == null
      ensures session != null ==>
        SocketOf(View(), name) == Some(session.socket) && session.socket in cliSessionMap &&
          cliSessionMap[session.socket] == session
    {
      session := null;
      if name in usernameToSocket {
        var socket := usernameToSocket[name];
        if socket in cliSessionMap {
          session := cliSessionMap[socket];
        }
      }
    }

    method GetAllSessions() returns (sessions: map<int, ClientSession>)
      ensures sessions == cliSessionMap
    {
      sessions := cliSessionMap;
    }

    // The size of the index, which is the number of logged-in sessions as long as the index is exact.
    method GetOnlineUserCount() returns (n: nat)
      ensures IndexExact(View()) ==> n == |set s | s in View().live && View().live[s].username != ""|
    {
      n := |usernameToSocket|;
      if IndexExact(View()) { OnlineCount(View()); }
    }

    method BindUsername(socket: int, name: string)
      requires Valid()
      modifies this
      ensures Valid() && View() == Sessions.BindUsername(old(View()), socket, name)
      ensures cliSessionMap == old(cliSessionMap)
    {
      usernameToSocket := usernameToSocket[name := socket];
    }

    // Writing through a session pointer the table handed out changes that one entry.
    twostate lemma EntryChanged(session: ClientSession)
      requires old(Valid()) && unchanged(this)
      requires session.socket in cliSessionMap && cliSessionMap[session.socket] == session
      requires forall o :: o in cliSessionMap.Values && o != session ==> unchanged(o)
      ensures Valid() && View() == old(View()).(live := old(View()).live[session.socket := session.View()])
    {
      forall s | s in cliSessionMap && s != session.socket
        ensures cliSessionMap[s].View() == old(cliSessionMap[s].View())
      {
        assert cliSessionMap[s] != session && cliSessionMap[s] in cliSessionMap.Values;
      }
    }
  }
}
