/** The idempotency middleware and the recorder that captures a handler's response. */
module Middleware {
  import opened Domain
  import opened Replay

  /** What a handler does to its response writer. */
  datatype Act = SetStatus(code: nat) | Send(data: Bytes)

  /** The status the first act settles on; an empty handler sends 200. */
  function SentStatus(acts: seq<Act>): nat {
    if acts == [] then 200
    else match acts[0]
      case SetStatus(code) => code
      case Send(_) => 200
  }

  function SentBody(acts: seq<Act>): Bytes {
    if acts == [] then ""
    else Data(acts[0]) + SentBody(acts[1..])
  }

  function Sent(acts: seq<Act>): Response {
    Response(SentStatus(acts), SentBody(acts))
  }

  function Data(a: Act): Bytes {
    if a.Send? then a.data else ""
  }

  lemma {:induction false} SentBodyAppend(acts: seq<Act>, a: Act)
    ensures SentBody(acts + [a]) == SentBody(acts) + Data(a)
  {
    if acts == [] {
      assert [] + [a] == [a] && [a][1..] == [];
      assert SentBody([a]) == Data(a) + "";
    } else {
      var rest := acts[1..];
      assert (acts + [a])[0] == acts[0] && (acts + [a])[1..] == rest + [a];
      SentBodyAppend(rest, a);
      assert Data(acts[0]) + (SentBody(rest) + Data(a)) == (Data(acts[0]) + SentBody(rest)) + Data(a);
    }
  }

  /** The connection: the first status wins, later ones are ignored. */
  class Wire {
    var status: Option<nat>
    var body: Bytes
    var replayed: bool

    constructor ()
      ensures status == None && body == "" && !replayed
    {
      status, body, replayed := None, "", false;
    }

    /** What the client has received once the exchange is over. */
    function Received(): Response
      reads this
    {
      Response(if status.Some? then status.value else 200, body)
    }

    method WriteHeader(code: nat)
      modifies this`status
      ensures status == if old(status).Some? then old(status) else Some(code)
    {
      if status.None? {
        status := Some(code);
      }
    }

    method Write(data: Bytes)
      modifies this`status, this`body
      ensures status == if old(status).Some? then old(status) else Some(200)
      ensures body == old(body) + data
    {
      if status.None? {
        status := Some(200);
      }
      body := body + data;
    }

    method MarkReplayed()
      modifies this`replayed
      ensures replayed
    {
      replayed := true;
    }
  }

  class Recorder {
    const wire: Wire
    var status: nat
    var wroteHeader: bool
    var buf: Bytes

    /** The recorder holds exactly what the client receives. */
    predicate Valid()
      reads this, wire
    {
      && buf == wire.body
      && (if wroteHeader then wire.status == Some(status) else wire.status == None && status == 200)
    }

    constructor (wire: Wire)
      requires wire.status == None && wire.body == ""
      ensures Valid() && this.wire == wire && !wroteHeader && buf == "" && status == 200
    {
      this.wire := wire;
      status, wroteHeader, buf := 200, false, "";
    }

    method WriteHeader(code: nat)
      requires Valid()
      modifies this`status, this`wroteHeader, wire`status
      ensures Valid() && wroteHeader
      ensures status == if old(wroteHeader) then old(status) else code
    {
      if wroteHeader {
        return;
      }
      status := code;
      wroteHeader := true;
      wire.WriteHeader(code);
    }

    method Write(data: Bytes)
      requires Valid()
      modifies this, wire`status, wire`body
      ensures Valid() && wroteHeader
      ensures status == if old(wroteHeader) then old(status) else 200
      ensures buf == old(buf) + data
    {
      if !wroteHeader {
        WriteHeader(200);
      }
      buf := buf + data;
      wire.Write(data);
    }

    /** Runs a handler: what was recorded is what was received is what was sent. */
    method Serve(acts: seq<Act>)
      requires Valid() && !wroteHeader && buf == ""
      modifies this, wire`status, wire`body
      ensures Valid() && Response(status, buf) == Sent(acts) == wire.Received()
    {
      for i := 0 to |acts|
        invariant Valid() && buf == SentBody(acts[..i])
        invariant wroteHeader <==> i > 0
        invariant i > 0 ==> status == SentStatus(acts)
      {
        SentBodyAppend(acts[..i], acts[i]);
        assert acts[..i + 1] == acts[..i] + [acts[i]];
        match acts[i] {
          case SetStatus(code) => WriteHeader(code);
          case Send(data) => Write(data);
        }
      }
      assert acts[..|acts|] == acts;
    }
  }

  datatype LookupResult = Held(rec: Record) | Absent | Failed(message: string)

  /** Records by key; an insert never overwrites. */
  class IdempotencyStore {
    var records: map<Key, Record>

    method Get(key: Key, failure: Option<string>) returns (r: LookupResult)
      ensures r == if failure.Some? then Failed(failure.value)
                   else if key in records then Held(records[key]) else Absent
    {
      r := if failure.Some? then Failed(failure.value) else if key in records then Held(records[key]) else Absent;
    }

    method Put(key: Key, rec: Record, outage: bool) returns (ok: bool)
      modifies this
      ensures ok <==> !outage && key !in old(records)
      ensures records == if ok then old(records)[key := rec] else old(records)
    {
      ok := !outage && key !in records;
      if ok {
        records := records[key := rec];
      }
    }
  }

  const CONFLICT := Response(409, "Idempotency-Key was previously used with a different request body")
  const KEY_REQUIRED := Response(400, "Idempotency-Key header is required on writes")

  function BodyUnreadable(message: string): Response {
    Response(400, "read body: " + message)
  }

  function LookupFailed(message: string): Response {
    Response(500, "idempotency lookup: " + message)
  }

  method Refuse(wire: Wire, answer: Response)
    requires wire.status == None && wire.body == ""
    modifies wire`status, wire`body
    ensures wire.Received() == answer
  {
    wire.WriteHeader(answer.status);
    wire.Write(answer.body);
  }

  /** One request from arrival to answer, with nothing in between. `key` is the trimmed
      header; the two clock readings are before the handler and after it; reading the
      body and looking the key up may fail. A request that is refused, conflicts or is
      replayed does not run the handler and leaves the records alone. */
  method ServeHTTP(store: IdempotencyStore, ttl: int, isPost: bool, key: Key, body: Bytes, readFailure: Option<string>,
                   lookupFailure: Option<string>, acts: seq<Act>, looked: Instant, put: Instant, id: RequestId,
                   outage: bool)
    returns (wire: Wire, ran: bool)
    modifies store
    ensures fresh(wire)
    ensures !isPost ==> ran && wire.Received() == Sent(acts) && store.records == old(store.records)
    ensures isPost && !ran ==> store.records == old(store.records)
    ensures isPost && key == "" ==> !ran && wire.Received() == KEY_REQUIRED && KEY_REQUIRED.status == 400
    ensures isPost && key != "" && readFailure.Some? ==>
              !ran && wire.Received() == BodyUnreadable(readFailure.value) && wire.Received().status == 400
    ensures isPost && key != "" && readFailure.None? && lookupFailure.Some? ==>
              !ran && wire.Received() == LookupFailed(lookupFailure.value) && wire.Received().status == 500
    ensures isPost && key != "" && readFailure.None? && lookupFailure.None? ==>
              var before := old(store.records);
              var live := key in before && (before[key].expiresAt == 0 || looked <= before[key].expiresAt);
              && (ran <==> !live)
              && (live && before[key].request != body ==>
                    wire.Received() == CONFLICT && CONFLICT.status == 409 && !wire.replayed)
              && (live && before[key].request == body ==> wire.Received() == before[key].response && wire.replayed)
              && (!live ==>
                    && wire.Received() == Sent(acts) && !wire.replayed
                    && store.records == if 200 <= Sent(acts).status <= 299 && key !in before && !outage
                                        then before[key := Record(body, Sent(acts), put + ttl, id, 0)] else before)
    ensures isPost && key != "" && readFailure.None? && lookupFailure.None? ==>
              var found := if key in old(store.records) then Some(old(store.records)[key]) else None;
              ran <==> Decide(found, body, looked) == RunHandler
  {
    wire := new Wire();
    ran := false;
    if !isPost {
      var direct := new Recorder(wire);
      direct.Serve(acts);
      return wire, true;
    }
    if key == "" {
      Refuse(wire, KEY_REQUIRED);
      return;
    }
    if readFailure.Some? {
      Refuse(wire, BodyUnreadable(readFailure.value));
      return;
    }
    var existing := store.Get(key, lookupFailure);
    match existing {
      case Held(rec) =>
        if !(rec.expiresAt != NEVER && looked > rec.expiresAt) {
          if rec.request != body {
            Refuse(wire, CONFLICT);
            return;
          }
          wire.MarkReplayed();
          wire.WriteHeader(rec.response.status);
          wire.Write(rec.response.body);
          return;
        }
      case Absent =>
      case Failed(message) =>
        Refuse(wire, LookupFailed(message));
        return;
    }
    var rec := new Recorder(wire);
    rec.Serve(acts);
    if rec.status >= 200 && rec.status < 300 {
      var _ := store.Put(key, Record(body, Response(rec.status, rec.buf), put + ttl, id, 0), outage);
    }
    ran := true;
  }
}
