/** The connection manager (src/server.py): API-key extraction and
    admission, the registry of connected clients, and the per-message
    dispatch of the receive loop. The transport is replaced by its inputs:
    the parsed query parameters of the connection request, the fresh client
    id the server draws, and the sequence of frames the client sends before
    the connection closes. */
module Server {
  import opened Base
  import opened Client
  import Auth
  import Buffering

  type ClientId = string

  /** Query parameters as `urllib.parse.parse_qs` returns them: each name
      maps to the list of its values. */
  type QueryParams = map<string, seq<string>>

  const ApiKeyParam: string := "AWAAZ_API_KEY"
  const AuthFailureCode: int := 4001
  const MissingKeyReason: string := "Missing API Key"
  const InvalidKeyReason: string := "Invalid API Key"

  /** The admission decision: close the connection with a code and reason, or
      admit it. */
  datatype Admission = Reject(code: int, reason: string) | Admit

  /** An inbound frame. A text frame carries what `json.loads` made of it,
      `None` when it is not valid JSON. */
  datatype Message = Binary(data: seq<byte>) | Text(parsed: Option<Json>) | Unexpected

  /** How one frame was handled: the loop goes on, the frame raised out of
      the loop, or the ingest step exited the process. */
  datatype Dispatch =
    | Handled(client: Buffering.Machine)
    | Raised(client: Buffering.Machine)
    | Exit(client: Buffering.Machine)

  datatype LoopEnd = ConnectionClosed | ExceptionRaised | ProcessExit

  /** Where the receive loop stopped: the client's final state, how many
      frames it took (the last one being the one that ended it, if any), and
      why. */
  datatype LoopResult = LoopResult(client: Buffering.Machine, consumed: nat, end: LoopEnd)

  /** The server's configuration and its registry of connected clients. */
  datatype Server = Server(
    clients: map<ClientId, Buffering.Machine>,
    apiKeys: seq<Option<string>>,
    samplingRate: int,
    samplesWidth: int,
    chunkLengthSeconds: real,
    chunkOffsetSeconds: real,
    errorIfNotRealtime: bool)

  datatype CloseFrame = CloseFrame(code: int, reason: string)

  /** The outcome of one connection: the server afterwards, the close frame
      sent if it was rejected, and how the receive loop ended if admitted. */
  datatype Connection = Connection(server: Server, closed: Option<CloseFrame>, loop: Option<LoopResult>)

  // ---------------------------------------------------------------------
  // Admission
  // ---------------------------------------------------------------------

  /** The key is the first value of the `AWAAZ_API_KEY` parameter, if that
      parameter has any value. */
  function ExtractApiKey(params: QueryParams): (key: Option<string>)
    ensures key.Some? <==> ApiKeyParam in params && |params[ApiKeyParam]| > 0
    ensures key.Some? ==> key.value == params[ApiKeyParam][0]
  {
    if ApiKeyParam in params && |params[ApiKeyParam]| > 0 then Some(params[ApiKeyParam][0]) else None
  }

  /** A key is usable only if present and non-empty (`not api_key`). */
  predicate Missing(key: Option<string>) {
    key.None? || key.value == ""
  }

  /** Missing key, invalid key, or admit, checked in that order. */
  function Decide(params: QueryParams, apiKeys: seq<Option<string>>): (r: Admission)
    ensures r == Reject(AuthFailureCode, MissingKeyReason) <==> Missing(ExtractApiKey(params))
    ensures r == Reject(AuthFailureCode, InvalidKeyReason)
            <==> (!Missing(ExtractApiKey(params))
                  && !Auth.ValidateApiKey(ExtractApiKey(params).value, apiKeys))
    ensures r == Admit
            <==> (!Missing(ExtractApiKey(params))
                  && Auth.ValidateApiKey(ExtractApiKey(params).value, apiKeys))
  {
    var key := ExtractApiKey(params);
    if Missing(key) then Reject(AuthFailureCode, MissingKeyReason)
    else if !Auth.ValidateApiKey(key.value, apiKeys) then Reject(AuthFailureCode, InvalidKeyReason)
    else Admit
  }

  /** With the deployed key list, a connection is admitted exactly when the
      first `AWAAZ_API_KEY` value is the configured `TARA_API_KEY`, and that
      key is non-empty; an unset `TARA_API_KEY` admits nobody. */
  lemma AdmitsExactlyConfiguredKey(params: QueryParams, taraApiKey: Option<string>)
    ensures Decide(params, Auth.ApiKeys(taraApiKey)) == Admit
            <==> (taraApiKey.Some? && taraApiKey.value != ""
                  && ApiKeyParam in params && |params[ApiKeyParam]| > 0
                  && params[ApiKeyParam][0] == taraApiKey.value)
    ensures taraApiKey.None? ==> Decide(params, Auth.ApiKeys(taraApiKey)).Reject?
  {
    var key := ExtractApiKey(params);
    if !Missing(key) {
      Auth.OnlyConfiguredKeyAccepted(key.value, taraApiKey);
    }
  }

  // ---------------------------------------------------------------------
  // Registry
  // ---------------------------------------------------------------------

  /** The client object created on admission, with its buffering strategy. */
  function NewClient(srv: Server, id: ClientId): (c: Buffering.Machine)
    ensures c.session == NewSession(id, srv.samplingRate, srv.samplesWidth)
    ensures c.pass == Buffering.NoPass && !c.strategy.processingFlag
    ensures Buffering.LedgerOk(c) && c.sent == []
  {
    Buffering.NewMachine(
      NewSession(id, srv.samplingRate, srv.samplesWidth),
      Buffering.NewStrategy(srv.chunkLengthSeconds, srv.chunkOffsetSeconds, srv.errorIfNotRealtime))
  }

  /** Insert the new client under its (fresh) id. */
  function Register(srv: Server, id: ClientId): (r: Server)
    requires id !in srv.clients
    ensures r.clients.Keys == srv.clients.Keys + {id}
    ensures |r.clients| == |srv.clients| + 1
    ensures r.clients[id] == NewClient(srv, id)
    ensures forall k :: k in srv.clients ==> r.clients[k] == srv.clients[k]
    ensures r == srv.(clients := r.clients)
  {
    srv.(clients := srv.clients[id := NewClient(srv, id)])
  }

  /** The `finally` clause: delete the client's entry. */
  function Unregister(srv: Server, id: ClientId): (r: Server)
    requires id in srv.clients
    ensures r.clients.Keys == srv.clients.Keys - {id}
    ensures |r.clients| == |srv.clients| - 1
    ensures forall k :: k in r.clients ==> r.clients[k] == srv.clients[k]
    ensures r == srv.(clients := r.clients)
  {
    srv.(clients := srv.clients - {id})
  }

  // ---------------------------------------------------------------------
  // The receive loop
  // ---------------------------------------------------------------------

  function DispatchOf(r: Buffering.Ingest): (d: Dispatch)
    ensures r.Continue? ==> d == Handled(r.next)
    ensures r.Fatal? ==> d == Exit(r.at)
    ensures d.client == (if r.Continue? then r.next else r.at)
  {
    match r
    case Continue(m) => Handled(m)
    case Fatal(m) => Exit(m)
  }

  /** One frame: binary audio is appended and checked against the threshold;
      a `config` control message updates the configuration and skips the
      threshold check; any other JSON object, and any frame of another type,
      goes straight to the threshold check. Text that is not JSON, JSON that
      is not an object (`.get` fails), and a `config` message without `data`
      raise out of the loop. */
  function HandleMessage(c: Buffering.Machine, msg: Message): (d: Dispatch)
    ensures msg.Binary? ==> d == DispatchOf(Buffering.ProcessAudio(Buffering.AppendAudio(c, msg.data)))
    ensures msg.Unexpected? ==> d == DispatchOf(Buffering.ProcessAudio(c))
    ensures msg == Text(None) ==> d == Raised(c)
    ensures msg.Text? && msg.parsed.Some? && !msg.parsed.value.JObject? ==> d == Raised(c)
    ensures IsConfig(msg) && "data" in msg.parsed.value.fields
            ==> d == Handled(c.(session := UpdateConfig(c.session, msg.parsed.value.fields["data"])))
    ensures IsConfig(msg) && "data" !in msg.parsed.value.fields ==> d == Raised(c)
    ensures IsOtherObject(msg) ==> d == DispatchOf(Buffering.ProcessAudio(c))
    // Whatever happens, the frame's audio (if any) is appended and nothing is sent.
    ensures d.client.ledger.received == c.ledger.received + Payload(msg)
    ensures d.client.sent == c.sent
    ensures Buffering.LedgerOk(c) ==> Buffering.LedgerOk(d.client)
  {
    match msg
    case Binary(data) =>
      assert Payload(msg) == data;
      DispatchOf(Buffering.ProcessAudio(Buffering.AppendAudio(c, data)))
    case Unexpected => DispatchOf(Buffering.ProcessAudio(c))
    case Text(None) => Raised(c)
    case Text(Some(json)) =>
      if !json.JObject? then Raised(c)
      else if "type" in json.fields && json.fields["type"] == JString("config") then
        if "data" in json.fields then Handled(c.(session := UpdateConfig(c.session, json.fields["data"])))
        else Raised(c)
      else DispatchOf(Buffering.ProcessAudio(c))
  }

  /** A text frame holding a JSON object whose `type` is `"config"`. */
  predicate IsConfig(msg: Message) {
    && msg.Text? && msg.parsed.Some? && msg.parsed.value.JObject?
    && "type" in msg.parsed.value.fields && msg.parsed.value.fields["type"] == JString("config")
  }

  /** A text frame holding any other JSON object. */
  predicate IsOtherObject(msg: Message) {
    msg.Text? && msg.parsed.Some? && msg.parsed.value.JObject? && !IsConfig(msg)
  }

  /** The audio bytes carried by the binary frames of `msgs`, in order. */
  function Payloads(msgs: seq<Message>): seq<byte>
    decreases |msgs|
  {
    if |msgs| == 0 then []
    else Payload(msgs[0]) + Payloads(msgs[1..])
  }

  function Payload(msg: Message): seq<byte> {
    if msg.Binary? then msg.data else []
  }

  /** The audio bytes carried by the binary frames among the first `k` of
      `msgs` (all of them when `k` exceeds the count). */
  function PayloadsUpTo(msgs: seq<Message>, k: nat): seq<byte>
    decreases |msgs|
  {
    if |msgs| == 0 || k == 0 then []
    else Payload(msgs[0]) + PayloadsUpTo(msgs[1..], k - 1)
  }

  lemma {:induction false} PayloadsUpToIsPrefix(msgs: seq<Message>, k: nat)
    requires k <= |msgs|
    ensures PayloadsUpTo(msgs, k) == Payloads(msgs[..k])
    decreases |msgs|
  {
    if |msgs| > 0 && k > 0 {
      PayloadsUpToIsPrefix(msgs[1..], k - 1);
      assert msgs[..k][1..] == msgs[1..][..k - 1];
    } else {
      assert msgs[..k] == [];
    }
  }

  /** `handle_audio`: handle frames in arrival order until one raises or the
      client stops sending (which surfaces as `ConnectionClosed`). Every
      binary frame handled is appended to the stream verbatim and in order,
      and the buffers stay consistent with that stream. */
  function ReceiveLoop(c: Buffering.Machine, msgs: seq<Message>): (r: LoopResult)
    ensures r.consumed <= |msgs|
    ensures r.end == ConnectionClosed ==> r.consumed == |msgs|
    ensures r.end != ConnectionClosed ==> r.consumed >= 1
    ensures r.client.ledger.received == c.ledger.received + PayloadsUpTo(msgs, r.consumed)
    ensures r.client.sent == c.sent
    ensures Buffering.LedgerOk(c) ==> Buffering.LedgerOk(r.client)
    decreases |msgs|
  {
    if |msgs| == 0 then LoopResult(c, 0, ConnectionClosed)
    else
      match HandleMessage(c, msgs[0])
      case Raised(x) => LoopResult(x, 1, ExceptionRaised)
      case Exit(x) => LoopResult(x, 1, ProcessExit)
      case Handled(c') =>
        var rest := ReceiveLoop(c', msgs[1..]);
        LoopResult(rest.client, rest.consumed + 1, rest.end)
  }

  /** `handle_websocket`: authenticate, register the client, run the receive
      loop, and remove the client whatever way the loop ends. (`exit` raises
      `SystemExit`, which also passes through the `finally`.) */
  function HandleWebsocket(srv: Server, params: QueryParams, id: ClientId, msgs: seq<Message>): (r: Connection)
    requires id !in srv.clients
    ensures Decide(params, srv.apiKeys).Reject? ==>
      r == Connection(srv, Some(CloseFrame(Decide(params, srv.apiKeys).code, Decide(params, srv.apiKeys).reason)), None)
    ensures Decide(params, srv.apiKeys) == Admit ==>
      && r.closed == None
      && r.loop == Some(ReceiveLoop(NewClient(srv, id), msgs))
    ensures r.server == srv
  {
    match Decide(params, srv.apiKeys)
    case Reject(code, reason) => Connection(srv, Some(CloseFrame(code, reason)), None)
    case Admit =>
      var admitted := Register(srv, id);
      var loop := ReceiveLoop(admitted.clients[id], msgs);
      var after := Unregister(admitted, id);
      assert after.clients == srv.clients;
      Connection(after, None, Some(loop))
  }

  /** A connection without any `AWAAZ_API_KEY` value is closed with
      `4001 Missing API Key` and registers nobody. */
  lemma NoKeyIsMissing(srv: Server, params: QueryParams, id: ClientId, msgs: seq<Message>)
    requires id !in srv.clients
    requires ApiKeyParam !in params || |params[ApiKeyParam]| == 0
    ensures HandleWebsocket(srv, params, id, msgs)
         == Connection(srv, Some(CloseFrame(4001, "Missing API Key")), None)
  {
  }

  /** A connection with a key outside the configured list is closed with
      `4001 Invalid API Key` and registers nobody. */
  lemma UnknownKeyIsInvalid(srv: Server, params: QueryParams, id: ClientId, msgs: seq<Message>)
    requires id !in srv.clients
    requires ApiKeyParam in params && |params[ApiKeyParam]| > 0 && params[ApiKeyParam][0] != ""
    requires forall i :: 0 <= i < |srv.apiKeys| ==> srv.apiKeys[i] != Some(params[ApiKeyParam][0])
    ensures HandleWebsocket(srv, params, id, msgs)
         == Connection(srv, Some(CloseFrame(4001, "Invalid API Key")), None)
  {
  }

  /** While an admitted connection is served, the registry holds exactly one
      more client than before, under the fresh id, and the client's receive
      loop starts from an empty session; once it ends the registry is back to
      what it was. */
  lemma AdmittedConnectionLifecycle(srv: Server, params: QueryParams, id: ClientId, msgs: seq<Message>)
    requires id !in srv.clients
    requires Decide(params, srv.apiKeys) == Admit
    ensures |Register(srv, id).clients| == |srv.clients| + 1
    ensures Register(srv, id).clients.Keys - srv.clients.Keys == {id}
    ensures Register(srv, id).clients[id].session.buffer == []
    ensures Unregister(Register(srv, id), id) == srv
    ensures HandleWebsocket(srv, params, id, msgs).server == srv
    ensures HandleWebsocket(srv, params, id, msgs).loop.value.client.ledger.received
         == PayloadsUpTo(msgs, HandleWebsocket(srv, params, id, msgs).loop.value.consumed)
  {
    var admitted := Register(srv, id);
    assert Unregister(admitted, id).clients == srv.clients;
  }
}
