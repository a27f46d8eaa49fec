/**
 Who owns an MCP session. Connects, refreshes, list-changed notifications and Close interleave
 at the granularity of the client's locks; every lock section is one step of `Apply`.
 */
module McpClient {
  import opened Wrappers

  /** A server's tool table, with the session it was listed from. */
  datatype Table = Table(names: set<string>, listedFrom: Option<nat>, available: bool)

  datatype Server = Server(session: Option<nat>, generation: nat, tools: Table)

  const NO_TOOLS := Table({}, None, true)

  function WithSession(server: Server, session: nat): Server {
    Server(Some(session), server.generation + 1, NO_TOOLS)
  }

  predicate Accepts(server: Server, generation: nat) {
    server.session.Some? && server.generation == generation
  }

  function WithTools(server: Server, generation: nat, names: set<string>, listedFrom: nat): Server {
    if Accepts(server, generation) then server.(tools := Table(names, Some(listedFrom), true)) else server
  }

  function Swept(server: Server): Server {
    Server(None, server.generation + 1, server.tools.(available := false))
  }

  function AgentTools(server: Server): set<string> {
    if server.tools.available then server.tools.names else {}
  }

  /** The guarded fields of the source's `serverRuntime`. */
  class ServerRuntime {
    var session: Option<nat>
    var generation: nat
    var tools: Table

    ghost function View(): Server
      reads this
    {
      Server(session, generation, tools)
    }

    constructor ()
      ensures View() == Server(None, 0, NO_TOOLS)
    {
      session, generation, tools := None, 0, NO_TOOLS;
    }

    method InstallSession(newSession: nat) returns (previous: Option<nat>, installed: nat)
      modifies this
      ensures View() == WithSession(old(View()), newSession)
      ensures previous == old(session) && installed == generation
      ensures session == Some(newSession) && generation == old(generation) + 1 && tools == Table({}, None, true)
    {
      previous := session;
      session := Some(newSession);
      generation := generation + 1;
      tools := NO_TOOLS;
      installed := generation;
    }

    /** `listedFrom` is the session whose listing is installed; the source does not store it. */
    method InstallTools(forGeneration: nat, names: set<string>, listedFrom: nat) returns (ok: bool)
      modifies this
      ensures ok <==> Accepts(old(View()), forGeneration)
      ensures View() == WithTools(old(View()), forGeneration, names, listedFrom)
      ensures ok <==> session.Some? && generation == forGeneration
      ensures session == old(session) && generation == old(generation)
      ensures tools == if ok then Table(names, Some(listedFrom), true) else old(tools)
      ensures ok ==> AgentTools(View()) == names
    {
      if session.None? || generation != forGeneration {
        return false;
      }
      tools := Table(names, Some(listedFrom), true);
      return true;
    }

    method Sweep() returns (taken: Option<nat>)
      modifies this
      ensures taken == old(session) && View() == Swept(old(View()))
      ensures session == None && generation == old(generation) + 1 && AgentTools(View()) == {}
      ensures tools.names == old(tools).names && tools.listedFrom == old(tools).listedFrom
    {
      taken := session;
      session := None;
      generation := generation + 1;
      tools := tools.(available := false);
    }
  }

  datatype Page = Failure | NoResult | Page(tools: seq<string>, next: string)

  function Concatenated(list: (nat, string) -> Page, cursors: seq<string>): seq<string> {
    if cursors == [] then []
    else
      var n := |cursors| - 1;
      var page := list(n, cursors[n]);
      Concatenated(list, cursors[..n]) + if page.Page? then page.tools else []
  }

  /** The page fetched with the last cursor. */
  function LastPage(list: (nat, string) -> Page, cursors: seq<string>): Page
    requires cursors != []
  {
    list(|cursors| - 1, cursors[|cursors| - 1])
  }

  /** Cursors that were followed: from "", each page named the next one, and no cursor was followed twice. */
  ghost predicate Followed(list: (nat, string) -> Page, cursors: seq<string>) {
    cursors != [] &&
    var n, cursor := |cursors| - 1, cursors[|cursors| - 1];
    if n == 0 then cursor == ""
    else
      && Followed(list, cursors[..n])
      && cursor != "" && cursor !in cursors[1..n]
      && LastPage(list, cursors[..n]).Page? && LastPage(list, cursors[..n]).next == cursor
  }

  /** Page by page: the first cursor is empty, each next one is the one that the page before named, and all are new. */
  lemma {:induction false} FollowedMeans(list: (nat, string) -> Page, cursors: seq<string>)
    requires Followed(list, cursors)
    ensures cursors[0] == ""
    ensures forall i :: 0 < i < |cursors| ==> cursors[i] != ""
    ensures forall i :: 0 <= i < |cursors| - 1 ==>
              list(i, cursors[i]).Page? && list(i, cursors[i]).next == cursors[i + 1]
    ensures forall i, j :: 0 < i < j < |cursors| ==> cursors[i] != cursors[j]
  {
    var n := |cursors| - 1;
    if n > 0 {
      var before := cursors[..n];
      FollowedMeans(list, before);
      assert LastPage(list, before) == list(n - 1, cursors[n - 1]);
      hide *;
      assert forall i :: 0 <= i < n ==> before[i] == cursors[i];
      forall i | 0 <= i < n
        ensures list(i, cursors[i]).Page? && list(i, cursors[i]).next == cursors[i + 1]
      {
        assert before[i] == cursors[i] && (i < n - 1 ==> before[i + 1] == cursors[i + 1]);
      }
      forall i, j | 0 < i < j <= n
        ensures cursors[i] != cursors[j]
      {
        if j == n {
          assert cursors[i] == cursors[1..n][i - 1];
        } else {
          assert before[i] == cursors[i] && before[j] == cursors[j];
        }
      }
    }
  }

  /** Where the tools of page `i` are in the result: behind those of the pages before, all of them and in order. */
  lemma {:induction false} PagesAreJoined(list: (nat, string) -> Page, cursors: seq<string>, i: nat)
    requires i < |cursors| && list(i, cursors[i]).Page?
    ensures
      var all, from, tools := Concatenated(list, cursors), |Concatenated(list, cursors[..i])|,
        list(i, cursors[i]).tools;
      && from + |tools| == |Concatenated(list, cursors[..i + 1])| <= |all|
      && all[from..from + |tools|] == tools
  {
    var n := |cursors| - 1;
    assert cursors[..i + 1][..i] == cursors[..i];
    if i < n {
      PagesAreJoined(list, cursors[..n], i);
      assert cursors[..n][..i] == cursors[..i] && cursors[..n][..i + 1] == cursors[..i + 1];
    } else {
      assert cursors[..i + 1] == cursors;
    }
  }

  /** The pagination loop: all pages of one chain without repeated cursors, or None. */
  method ListAllTools(list: (nat, string) -> Page) returns (tools: Option<seq<string>>, ghost cursors: seq<string>)
    ensures Followed(list, cursors) && |cursors| <= 1000
    ensures tools.Some? ==>
              && LastPage(list, cursors).Page? && LastPage(list, cursors).next == ""
              && tools.value == Concatenated(list, cursors)
    ensures tools.None? ==>
              var page := LastPage(list, cursors);
              !page.Page? || page.next in cursors[1..] || (|cursors| == 1000 && page.next != "")
  {
    var collected := [];
    var cursor := "";
    var seen := {};
    cursors := [""];
    for page := 0 to 1000
      invariant page < 1000 ==> |cursors| == page + 1 && cursors[page] == cursor && Followed(list, cursors)
      invariant page == 1000 ==> |cursors| == 1000 && Followed(list, cursors)
      invariant page == 1000 ==> LastPage(list, cursors).Page? && LastPage(list, cursors).next != ""
      invariant page < 1000 ==> forall c :: c in seen <==> c in cursors[1..]
      invariant page < 1000 ==> collected == Concatenated(list, cursors[..page])
    {
      var result := list(page, cursor);
      if !result.Page? {
        return None, cursors;
      }
      assert cursors[..page + 1] == cursors;
      collected := collected + result.tools;
      if result.next == "" {
        return Some(collected), cursors;
      }
      if result.next in seen {
        return None, cursors;
      }
      seen := seen + {result.next};
      cursor := result.next;
      if page < 999 {
        ghost var followed := cursors;
        cursors := cursors + [cursor];
        assert cursors[..page + 1] == followed && cursors[1..page + 1] == followed[1..];
        assert cursors[1..] == followed[1..] + [cursor];
      }
    }
    return None, cursors;
  }
}
