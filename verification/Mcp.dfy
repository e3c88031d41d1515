/** The MCP session (mcp.c): a key is captured from the client, and when a client attaches
    later, the session on the server is reset with it. */
module Mcp {
  import Sequences
  import opened Text
  import opened Codec
  import opened McpText

  // ---------------------------------------------------------------------
  // Messages of mooproxy itself
  // ---------------------------------------------------------------------

  datatype Own = Can(key: string) | End(key: string) | Reset(key: string)

  function OwnText(m: Own): string {
    match m
    case Can(key) => "#$#mcp-negotiate-can " + key + " package: dns-nl-icecrew-mcpreset min-version: 1.0 max-version: 1.0"
    case End(key) => "#$#mcp-negotiate-end " + key
    case Reset(key) => "#$#dns-nl-icecrew-mcpreset-reset " + key
  }

  /** What has happened so far. */
  datatype Note =
    | Relayed(str: string)             // a line of the client went to the server
    | Told(m: Own)                     // mooproxy told the server something
    | Up                               // the server connection was made
    | Down                             // and lost

  datatype Session = Session(
    key: Option<string>,               // mcp_key
    negotiated: bool,                  // mcp_negotiated
    initmsg: Option<string>,           // mcp_initmsg
    up: bool,                          // server_fd != -1
    toServer: seq<string>,             // all that went to server_toqueue
    toClient: seq<string>,             // all that went to client_toqueue
    past: seq<Note>)

  const NEW_SESSION := Session(None, false, None, false, [], [], [])

  /** Something for the server, and the note of it. */
  function Noted(s: Session, n: Note): Session {
    s.(past := s.past + [n],
       toServer := s.toServer + match n case Relayed(str) => [str] case Told(m) => [OwnText(m)] case _ => [])
  }

  function Tell(s: Session, m: Own): Session {
    Noted(s, Told(m))
  }

  function Give(s: Session, str: string): Session {
    s.(toClient := s.toClient + [str])
  }

  // ---------------------------------------------------------------------
  // The steps
  // ---------------------------------------------------------------------

  predicate IsInit(str: string) {
    StartsNoCase(CString(str), MCP_INIT)
  }

  predicate IsCan(str: string) {
    StartsNoCase(CString(str), MCP_CAN)
  }

  /** If the client sends the "mcp" message, its key replaces any other. */
  function Capture(s: Session, str: string): Session {
    var key := ExtractKey(CString(str));
    if IsInit(str) && key.Some? then s.(key := key) else s
  }

  /** When the client negotiates, mooproxy adds its own package, for both sides. */
  function Negotiate(s: Session, str: string): Session {
    if IsCan(str) && s.key.Some? then
      Give(Tell(s.(negotiated := true), Can(s.key.value)), OwnText(Can(s.key.value)))
    else s
  }

  /** world_do_mcp_client. */
  function ClientLine(s: Session, str: string): Session {
    var s1 := Noted(s, Relayed(str));
    if s.negotiated then s1 else Negotiate(Capture(s1, str), str)
  }

  /** world_do_mcp_server. */
  function ServerLine(s: Session, str: string): Session {
    Give(s, str).(initmsg := if s.initmsg.None? && IsInit(str) then Some(CString(str)) else s.initmsg)
  }

  function Erased(s: Session): Session {
    s.(key := None, negotiated := false, initmsg := None)
  }

  /** world_mcp_server_connect, when the server connection has been made. */
  function ServerConnect(s: Session): Session {
    var s0 := Noted(s.(up := true), Up);
    if s.key.None? then Erased(s0)
    else
      var k := s.key.value;
      var s1 := if s.negotiated then s0 else Give(Give(s0, OwnText(Can(k))), OwnText(End(k)));
      Erased(Give(s1, OwnText(Reset(k))))
  }

  /** The server connection is gone. */
  function ServerGone(s: Session): Session {
    Noted(s.(up := false), Down)
  }

  /** world_mcp_client_connect, which is not called when there is no server connection. */
  function ClientConnect(s: Session): Session {
    if !s.up then s
    else if s.key.None? then (if s.initmsg.Some? then Give(s, s.initmsg.value) else s)
    else
      var k := s.key.value;
      var s1 := if s.negotiated then s else Tell(Tell(s, Can(k)), End(k));
      Erased(Tell(s1, Reset(k)))
  }

  datatype Event =
    | FromClient(str: string)
    | FromServer(str: string)
    | ServerUp
    | ServerDown
    | ClientUp

  function Step(s: Session, e: Event): Session {
    match e
    case FromClient(str) => ClientLine(s, str)
    case FromServer(str) => ServerLine(s, str)
    case ServerUp => ServerConnect(s)
    case ServerDown => ServerGone(s)
    case ClientUp => ClientConnect(s)
  }

  function Run(s: Session, events: seq<Event>): Session
    decreases events
  {
    if events == [] then s else Run(Step(s, events[0]), events[1..])
  }

  // ---------------------------------------------------------------------
  // Safety
  // ---------------------------------------------------------------------

  /** Nothing after position i ends the session or uses up the key; while the server
      connection stands, it has stood since. */
  predicate LiveSince(past: seq<Note>, i: nat, up: bool) {
    forall j :: i < j < |past| ==> past[j] != Up && (past[j].Told? ==> !past[j].m.Reset?) && (up ==> past[j] != Down)
  }

  /** The note of an "mcp" message of the client that carries a key. */
  predicate GivesKey(n: Note) {
    n.Relayed? && IsInit(n.str) && ExtractKey(CString(n.str)).Some?
  }

  /** At i the client gave the key, and nothing happened to it since. */
  predicate GivenAt(past: seq<Note>, i: nat, key: string, up: bool) {
    && i < |past| && GivesKey(past[i]) && ExtractKey(CString(past[i].str)) == Some(key)
    && LiveSince(past, i, up)
  }

  /** The client has given no key since. */
  predicate LatestUpTo(past: seq<Note>, i: nat, m: nat) {
    forall n :: i < n < m && n < |past| ==> !GivesKey(past[n])
  }

  /** The server was told of the package with this key, when it was the latest one. */
  ghost predicate ToldCan(past: seq<Note>, i: nat, key: string) {
    exists m :: i < m < |past| && past[m] == Told(Can(key)) && LatestUpTo(past, i, m)
  }

  /** The reset at j uses a key that the client gave in the same server session; the server
      was told of the package with that key before, when the client had given no other; and
      the key is used only once. */
  ghost predicate ResetOk(past: seq<Note>, j: nat)
    requires j < |past| && past[j].Told? && past[j].m.Reset?
  {
    exists i :: GivenAt(past[..j], i, past[j].m.key, true) && ToldCan(past[..j], i, past[j].m.key)
  }

  ghost predicate ResetsOk(past: seq<Note>) {
    forall j :: 0 <= j < |past| && past[j].Told? && past[j].m.Reset? ==> ResetOk(past, j)
  }

  /** The key that is held was given at i; if it is not negotiated yet, it is the latest. */
  ghost predicate HeldSince(past: seq<Note>, i: nat, key: string, negotiated: bool, up: bool) {
    && GivenAt(past, i, key, up)
    && if negotiated then ToldCan(past, i, key) else LatestUpTo(past, i, |past|)
  }

  ghost predicate KeyOk(s: Session) {
    s.key.Some? ==> exists i :: HeldSince(s.past, i, s.key.value, s.negotiated, s.up)
  }

  /** What the server gets is what the notes say. */
  function Emitted(past: seq<Note>): seq<string> {
    if past == [] then []
    else
      var n := past[|past| - 1];
      Emitted(past[..|past| - 1]) + match n case Relayed(str) => [str] case Told(m) => [OwnText(m)] case _ => []
  }

  ghost predicate Good(s: Session) {
    && (s.negotiated ==> s.key.Some?)
    && KeyOk(s)
    && ResetsOk(s.past)
    && s.toServer == Emitted(s.past)
  }

  lemma NoteEmits(s: Session, n: Note)
    requires s.toServer == Emitted(s.past)
    ensures Noted(s, n).toServer == Emitted(Noted(s, n).past)
  {
    assert (s.past + [n])[..|s.past|] == s.past;
  }

  /** A note that is not a reset leaves the resets as they are. */
  lemma PlainNote(past: seq<Note>, n: Note)
    requires ResetsOk(past) && (n.Told? ==> !n.m.Reset?)
    ensures ResetsOk(past + [n])
  {
    var p := past + [n];
    forall j | 0 <= j < |p| && p[j].Told? && p[j].m.Reset? ensures ResetOk(p, j) {
      assert ResetOk(past, j);
      assert p[..j] == past[..j];
    }
  }

  /** A plain note does not end what is known of a key. */
  lemma StillHeld(past: seq<Note>, i: nat, key: string, negotiated: bool, up: bool, n: Note)
    requires HeldSince(past, i, key, negotiated, up)
    requires n != Up && (n.Told? ==> !n.m.Reset?) && (up ==> n != Down) && (negotiated || !GivesKey(n))
    ensures HeldSince(past + [n], i, key, negotiated, up)
  {
    var past' := past + [n];
    if negotiated {
      var m :| i < m < |past| && past[m] == Told(Can(key)) && LatestUpTo(past, i, m);
      assert past'[m] == Told(Can(key)) && LatestUpTo(past', i, m);
    }
  }

  /** Lines of the client that give no key, and the like. */
  lemma NoteKeeps(s: Session, n: Note)
    requires Good(s)
    requires n.Relayed? || (n.Told? && !n.m.Reset?) || (n == Down && !s.up)
    requires s.negotiated || !GivesKey(n)
    ensures Good(Noted(s, n))
  {
    NoteEmits(s, n);
    PlainNote(s.past, n);
    if s.key.Some? {
      var i :| HeldSince(s.past, i, s.key.value, s.negotiated, s.up);
      StillHeld(s.past, i, s.key.value, s.negotiated, s.up, n);
    }
  }

  /** A line of the client that may give a key. */
  lemma CaptureKeeps(s: Session, str: string)
    requires Good(s) && !s.negotiated
    ensures Good(Capture(Noted(s, Relayed(str)), str))
  {
    var n := Relayed(str);
    var s' := Capture(Noted(s, n), str);
    if GivesKey(n) {
      NoteEmits(s, n);
      PlainNote(s.past, n);
      assert s'.past[|s.past|] == n;
      assert HeldSince(s'.past, |s.past|, s'.key.value, false, s.up);
    } else {
      NoteKeeps(s, n);
    }
  }

  /** After the server was told of the package, negotiation is done. */
  lemma CanKeeps(s: Session)
    requires Good(s) && s.key.Some? && !s.negotiated
    ensures Good(Tell(s, Can(s.key.value)).(negotiated := true))
  {
    var k := s.key.value;
    var n := Told(Can(k));
    NoteEmits(s, n);
    PlainNote(s.past, n);
    ToldNow(s.past, k, s.up);
  }

  lemma ToldNow(past: seq<Note>, key: string, up: bool)
    requires exists i :: HeldSince(past, i, key, false, up)
    ensures exists i :: HeldSince(past + [Told(Can(key))], i, key, true, up)
  {
    var i :| HeldSince(past, i, key, false, up);
    var past' := past + [Told(Can(key))];
    assert past'[|past|] == Told(Can(key)) && LatestUpTo(past', i, |past|);
    assert HeldSince(past', i, key, true, up);
  }

  lemma ClientLineKeeps(s: Session, str: string)
    requires Good(s)
    ensures Good(ClientLine(s, str))
  {
    if s.negotiated {
      NoteKeeps(s, Relayed(str));
    } else {
      CaptureKeeps(s, str);
      var s1 := Capture(Noted(s, Relayed(str)), str);
      if IsCan(str) && s1.key.Some? {
        CanKeeps(s1);
      }
    }
  }

  lemma ServerConnectKeeps(s: Session)
    requires Good(s)
    ensures Good(ServerConnect(s))
  {
    NoteEmits(s, Up);
    PlainNote(s.past, Up);
  }

  lemma ServerGoneKeeps(s: Session)
    requires Good(s)
    ensures Good(ServerGone(s))
  {
    if s.key.Some? {
      var i :| HeldSince(s.past, i, s.key.value, s.negotiated, s.up);
      assert HeldSince(s.past, i, s.key.value, s.negotiated, false);
    }
    NoteKeeps(s.(up := false), Down);
  }

  /** The reset itself. */
  lemma ResetKeeps(s: Session)
    requires Good(s) && s.up && s.negotiated
    ensures Good(Erased(Tell(s, Reset(s.key.value))))
  {
    var k := s.key.value;
    var n := Told(Reset(k));
    NoteEmits(s, n);
    var i :| HeldSince(s.past, i, k, true, true);
    var p := s.past + [n];
    forall j | 0 <= j < |p| && p[j].Told? && p[j].m.Reset? ensures ResetOk(p, j) {
      if j < |s.past| {
        assert ResetOk(s.past, j);
        assert p[..j] == s.past[..j];
      } else {
        assert p[..j] == s.past;
      }
    }
  }

  lemma ClientConnectKeeps(s: Session)
    requires Good(s)
    ensures Good(ClientConnect(s))
  {
    if s.up && s.key.Some? {
      if s.negotiated {
        ResetKeeps(s);
      } else {
        var k := s.key.value;
        CanKeeps(s);
        var s1 := Tell(s, Can(k)).(negotiated := true);
        NoteKeeps(s1, Told(End(k)));
        ResetKeeps(Tell(s1, End(k)));
      }
    }
  }

  lemma {:induction false} RunKeeps(s: Session, events: seq<Event>)
    requires Good(s)
    ensures Good(Run(s, events))
    decreases events
  {
    if events != [] {
      match events[0] {
        case FromClient(str) => ClientLineKeeps(s, str);
        case FromServer(str) =>
        case ServerUp => ServerConnectKeeps(s);
        case ServerDown => ServerGoneKeeps(s);
        case ClientUp => ClientConnectKeeps(s);
      }
      RunKeeps(Step(s, events[0]), events[1..]);
    }
  }

  // ---------------------------------------------------------------------
  // The notes are what happened
  // ---------------------------------------------------------------------

  /** The notes of what came from outside. */
  function Outside(past: seq<Note>): seq<Note> {
    if past == [] then []
    else Outside(past[..|past| - 1]) + if past[|past| - 1].Told? then [] else [past[|past| - 1]]
  }

  function EventNote(e: Event): seq<Note> {
    match e
    case FromClient(str) => [Relayed(str)]
    case ServerUp => [Up]
    case ServerDown => [Down]
    case _ => []
  }

  function EventNotes(events: seq<Event>): seq<Note> {
    if events == [] then [] else EventNote(events[0]) + EventNotes(events[1..])
  }

  lemma OutsideSnoc(s: Session, n: Note)
    ensures Outside(Noted(s, n).past) == Outside(s.past) + if n.Told? then [] else [n]
  {
    assert (s.past + [n])[..|s.past|] == s.past;
  }

  lemma TellOutside(s: Session, m: Own)
    ensures Outside(Tell(s, m).past) == Outside(s.past)
  {
    OutsideSnoc(s, Told(m));
  }

  lemma StepNotes(s: Session, e: Event)
    ensures Outside(Step(s, e).past) == Outside(s.past) + EventNote(e)
  {
    match e {
      case FromClient(str) => ClientLineNotes(s, str);
      case FromServer(str) => Sequences.EmptyEnds(Outside(s.past));
      case ServerUp => OutsideSnoc(s.(up := true), Up);
      case ServerDown => OutsideSnoc(s.(up := false), Down);
      case ClientUp => ClientConnectNotes(s);
    }
  }

  lemma ClientLineNotes(s: Session, str: string)
    ensures Outside(ClientLine(s, str).past) == Outside(s.past) + [Relayed(str)]
  {
    OutsideSnoc(s, Relayed(str));
    var s1 := Capture(Noted(s, Relayed(str)), str);
    if !s.negotiated && IsCan(str) && s1.key.Some? {
      TellOutside(s1.(negotiated := true), Can(s1.key.value));
    }
  }

  lemma ClientConnectNotes(s: Session)
    ensures Outside(ClientConnect(s).past) == Outside(s.past) + []
  {
    Sequences.EmptyEnds(Outside(s.past));
    if s.up && s.key.Some? {
      var k := s.key.value;
      var s1 := s;
      if !s.negotiated {
        TellOutside(s, Can(k));
        TellOutside(Tell(s, Can(k)), End(k));
        s1 := Tell(Tell(s, Can(k)), End(k));
      }
      TellOutside(s1, Reset(k));
    }
  }

  lemma {:induction false} RunNotes(s: Session, events: seq<Event>)
    ensures Outside(Run(s, events).past) == Outside(s.past) + EventNotes(events)
    decreases events
  {
    if events != [] {
      StepNotes(s, events[0]);
      RunNotes(Step(s, events[0]), events[1..]);
      Sequences.Assoc(Outside(s.past), EventNote(events[0]), EventNotes(events[1..]));
    }
  }

  /** Over every run: a negotiated session has a key; and every reset that the server is told
      carries the key of an "mcp" message that the client sent since this server connection
      was made, the latest one when the server was told of the package with that key, and
      before any other reset.  What the notes say has come from outside has come in this
      order, and what they say the server has got is what it got. */
  lemma ResetSafety(events: seq<Event>)
    ensures var s := Run(NEW_SESSION, events);
            && (s.negotiated ==> s.key.Some?)
            && ResetsOk(s.past)
            && Outside(s.past) == EventNotes(events) && s.toServer == Emitted(s.past)
  {
    RunKeeps(NEW_SESSION, events);
    RunNotes(NEW_SESSION, events);
  }

  /** A key that the client gave once is used for one reset at most. */
  lemma OneResetPerKey(events: seq<Event>, j: nat, k: nat)
    requires var past := Run(NEW_SESSION, events).past;
             && j < k < |past| && past[j].Told? && past[j].m.Reset?
             && past[k].Told? && past[k].m.Reset?
    ensures var past := Run(NEW_SESSION, events).past;
            exists i :: j < i < k && GivesKey(past[i]) && ExtractKey(CString(past[i].str)) == Some(past[k].m.key)
  {
    RunKeeps(NEW_SESSION, events);
    KeyGivenBetween(Run(NEW_SESSION, events).past, j, k);
  }

  lemma KeyGivenBetween(past: seq<Note>, j: nat, k: nat)
    requires ResetsOk(past) && j < k < |past| && past[j].Told? && past[j].m.Reset?
    requires past[k].Told? && past[k].m.Reset?
    ensures exists i :: j < i < k && GivesKey(past[i]) && ExtractKey(CString(past[i].str)) == Some(past[k].m.key)
  {
    assert ResetOk(past, k);
    var i: nat :| GivenAt(past[..k], i, past[k].m.key, true);
    assert past[..k][j] == past[j] && past[..k][i] == past[i];
    assert GivesKey(past[i]);
  }
}
