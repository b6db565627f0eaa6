/**
 * helper/health: the persistences a service depends on, their ping, and the health
 * endpoint's decision. A persistence's checker is any value of type C; what its Ping would
 * answer at the time of the call is the parameter ping (None for a nil error, Some(text)
 * for an error with that text).
 */
module Health {
  import opened Base
  import opened Errors
  import opened Response

  const HealthHeaderToken := "x-health-token"
  const HealthyMessage := "service is alive"
  const UnhealthyMessage := "service is not healthy"
  const ShuttingDownMessage := "service is shutting down"

  const StatusOK := 200
  const StatusUnauthorized := 401
  const StatusServiceUnavailable := 503

  const StatusFailed := "FAILED"
  const StatusUp := "OK"

  /** A persistence: name and type are free text, status and pingError are set by Ping. */
  datatype Persistence<C> = Persistence(name: string, kind: string, status: string, pingError: Option<string>, checker: C)

  /** NewPersistence: the given name, type and checker, an empty status and no ping error. */
  function NewPersistence<C>(name: string, kind: string, checker: C): (p: Persistence<C>)
    ensures p.name == name && p.kind == kind && p.checker == checker
    ensures p.status == "" && p.pingError.None?
  {
    Persistence(name, kind, "", None, checker)
  }

  /** One entry after its checker has been pinged. */
  function Pinged<C>(p: Persistence<C>, ping: C -> Option<string>): (q: Persistence<C>)
    ensures q.name == p.name && q.kind == p.kind && q.checker == p.checker
    ensures q.status == StatusUp <==> ping(p.checker).None?
    ensures ping(p.checker).Some? ==> q.status == StatusFailed && q.pingError == ping(p.checker)
    ensures ping(p.checker).None? ==> q.pingError.None?
  {
    match ping(p.checker)
    case Some(text) => p.(status := StatusFailed, pingError := Some(text))
    case None => p.(status := StatusUp, pingError := None)
  }

  /** Every entry after the ping: same length and order, each entry pinged. */
  function PingAll<C>(ps: seq<Persistence<C>>, ping: C -> Option<string>): (qs: seq<Persistence<C>>)
    ensures |qs| == |ps|
    ensures forall i :: 0 <= i < |ps| ==> qs[i] == Pinged(ps[i], ping)
  {
    seq(|ps|, i requires 0 <= i < |ps| => Pinged(ps[i], ping))
  }

  /** Every checker answers without error; true for no entries. */
  predicate AllUp<C>(ps: seq<Persistence<C>>, ping: C -> Option<string>) {
    forall i :: 0 <= i < |ps| ==> ping(ps[i].checker).None?
  }

  /** After the ping, the ping said yes exactly when every entry shows status "OK". */
  lemma AllUpIffStatusesOk<C>(ps: seq<Persistence<C>>, ping: C -> Option<string>)
    ensures AllUp(ps, ping) <==> forall i :: 0 <= i < |ps| ==> PingAll(ps, ping)[i].status == StatusUp
  {
    var qs := PingAll(ps, ping);
    forall i | 0 <= i < |ps| ensures qs[i].status == StatusUp <==> ping(ps[i].checker).None? {
      assert qs[i] == Pinged(ps[i], ping);
    }
  }

  /** Pinging twice with the same answers is pinging once. */
  lemma PingAllIdempotent<C>(ps: seq<Persistence<C>>, ping: C -> Option<string>)
    ensures PingAll(PingAll(ps, ping), ping) == PingAll(ps, ping)
  {
  }

  /**
   * Persistences.Ping: pings every entry, writes the result back in place, and ANDs the
   * answers. A failing entry does not stop the loop.
   */
  method Ping<C>(ps: array<Persistence<C>>, ping: C -> Option<string>) returns (ok: bool)
    modifies ps
    ensures ps[..] == PingAll(old(ps[..]), ping)
    ensures ok == AllUp(old(ps[..]), ping)
  {
    ghost var before := ps[..];
    ok := true;
    var i := 0;
    while i < ps.Length
      invariant 0 <= i <= ps.Length
      invariant ps[..i] == PingAll(before[..i], ping)
      invariant ps[i..] == before[i..]
      invariant ok == AllUp(before[..i], ping)
    {
      var p := ps[i];
      assert p == before[i];
      match ping(p.checker) {
        case Some(text) =>
          p := p.(status := StatusFailed, pingError := Some(text));
          ok := false;
        case None =>
          p := p.(status := StatusUp, pingError := None);
      }
      ps[i] := p;
      assert ps[..i + 1] == ps[..i] + [ps[i]];
      assert before[..i + 1] == before[..i] + [before[i]];
      assert ps[i + 1..] == before[i + 1..] by {
        assert forall k :: i + 1 <= k < ps.Length ==> ps[k] == before[k];
      }
      i := i + 1;
    }
    assert ps[..] == ps[..ps.Length];
    assert before == before[..ps.Length];
  }

  /** healthResponse: a message and, once set, the persistence list. */
  datatype HealthResponse<C> = HealthResponse(message: string, persistences: Option<seq<Persistence<C>>>)

  /** The JSON form of one persistence: name, type, status, and ping_error only when set. */
  function PersistenceJson<C>(p: Persistence<C>): (j: Json)
    ensures j.Object? && {"name", "type", "status"} <= j.fields.Keys
    ensures Field(j, "name") == Str(p.name) && Field(j, "type") == Str(p.kind) && Field(j, "status") == Str(p.status)
    ensures "ping_error" in j.fields <==> p.pingError.Some?
    ensures p.pingError.Some? ==> j.fields["ping_error"] == Str(p.pingError.value)
    ensures j.fields.Keys <= {"name", "type", "status", "ping_error"}
  {
    var fields := map["name" := Str(p.name), "type" := Str(p.kind), "status" := Str(p.status)];
    match p.pingError
    case Some(text) => Object(fields["ping_error" := Str(text)])
    case None => Object(fields)
  }

  /**
   * The JSON form of a health response: message, and persistences only when the pointer is
   * set. A persistence list nothing was appended to is a nil slice, which encoding/json
   * writes as null; otherwise it is an array with one entry per persistence, in order.
   */
  function HealthJson<C>(r: HealthResponse<C>): (j: Json)
    ensures j.Object? && Field(j, "message") == Str(r.message)
    ensures "persistences" in j.fields <==> r.persistences.Some?
    ensures r.persistences.Some? && |r.persistences.value| == 0 ==> Field(j, "persistences") == Null
    ensures r.persistences.Some? && |r.persistences.value| > 0 ==>
              var items := Field(j, "persistences");
              items.Array? && |items.items| == |r.persistences.value|
              && forall i :: 0 <= i < |items.items| ==> items.items[i] == PersistenceJson(r.persistences.value[i])
  {
    match r.persistences
    case Some(ps) =>
      var list := if |ps| == 0 then Null else Array(seq(|ps|, i requires 0 <= i < |ps| => PersistenceJson(ps[i])));
      Object(map["message" := Str(r.message), "persistences" := list])
    case None => Object(map["message" := Str(r.message)])
  }

  /** The package-level shutting-down flag, shared by every handler. It starts false. */
  class ShutdownFlag {
    var isShuttingDown: bool

    constructor ()
      ensures !isShuttingDown
    {
      isShuttingDown := false;
    }

    /** What the signal listener does on SIGTERM or an interrupt: it only ever sets the flag. */
    method Raise()
      modifies this
      ensures isShuttingDown
    {
      isShuttingDown := true;
    }
  }

  /**
   * The answer of the health endpoint, in the order the handler decides: the token first,
   * then the shutting-down flag, and only then the ping. before is the persistence list as
   * it is before the call; unauthorized and unavailable are the errors the handler sends.
   */
  function HealthReply<C>(token: Option<string>, header: string, shuttingDown: bool,
                          before: seq<Persistence<C>>, ping: C -> Option<string>,
                          unauthorized: GoError, unavailable: Error): Reply
  {
    if token.Some? && header != token.value then
      Failed(StatusUnauthorized, Some(unauthorized))
    else if shuttingDown then
      Failed(StatusServiceUnavailable, Some(Coded(Appended(unavailable, [ShuttingDownMessage]))))
    else
      var after := PingAll(before, ping);
      if AllUp(before, ping) then
        Success(StatusOK, Ok(HealthJson(HealthResponse(HealthyMessage, Some(after)))))
      else
        Failed(StatusServiceUnavailable, Some(Coded(SetData(unavailable, HealthJson(HealthResponse(UnhealthyMessage, Some(after)))))))
  }

  /** A configured token that the request does not carry is refused before anything else. */
  lemma TokenCheckedFirst<C>(token: string, header: string, shuttingDown: bool,
                             before: seq<Persistence<C>>, ping: C -> Option<string>,
                             unauthorized: GoError, unavailable: Error)
    requires header != token
    ensures HealthReply(Some(token), header, shuttingDown, before, ping, unauthorized, unavailable)
            == Failed(StatusUnauthorized, Some(unauthorized))
  {
  }

  /** While shutting down, the answer is 503 with the shutting-down message, whatever the pings. */
  lemma ShutdownBeforePing<C>(token: Option<string>, header: string,
                              before: seq<Persistence<C>>, ping: C -> Option<string>,
                              unauthorized: GoError, unavailable: Error)
    requires token.None? || header == token.value
    ensures var r := HealthReply(token, header, true, before, ping, unauthorized, unavailable);
            r.status == StatusServiceUnavailable
            && ReadError(Field(r.body, "error")) == Some(unavailable.(message := ShuttingDownMessage))
  {
    FailedErrorReadsBack(StatusServiceUnavailable, Appended(unavailable, [ShuttingDownMessage]));
  }

  /** The endpoint answers 200 exactly when the token passes, no shutdown is under way and every ping succeeds. */
  lemma HealthyIff<C>(token: Option<string>, header: string, shuttingDown: bool,
                      before: seq<Persistence<C>>, ping: C -> Option<string>,
                      unauthorized: GoError, unavailable: Error)
    ensures HealthReply(token, header, shuttingDown, before, ping, unauthorized, unavailable).status == StatusOK
            <==> (token.None? || header == token.value) && !shuttingDown && AllUp(before, ping)
  {
  }

  /** When a ping fails, the unhealthy message travels as the unavailable error's data. */
  lemma UnhealthyCarriesMessage<C>(token: Option<string>, header: string,
                                   before: seq<Persistence<C>>, ping: C -> Option<string>,
                                   unauthorized: GoError, unavailable: Error)
    requires token.None? || header == token.value
    requires !AllUp(before, ping)
    ensures var r := HealthReply(token, header, false, before, ping, unauthorized, unavailable);
            var e := ReadError(Field(r.body, "error"));
            r.status == StatusServiceUnavailable && e.Some?
            && e.value.code == unavailable.code && e.value.message == unavailable.message
            && Field(e.value.data, "message") == Str(UnhealthyMessage)
  {
    var data := HealthJson(HealthResponse(UnhealthyMessage, Some(PingAll(before, ping))));
    FailedErrorReadsBack(StatusServiceUnavailable, SetData(unavailable, data));
  }

  /** HealthHandler: the shared persistence list, the shutting-down flag and an optional token. */
  class HealthHandler<C> {
    const persistences: array<Persistence<C>>
    const flag: ShutdownFlag
    var token: Option<string>

    constructor (persistences: array<Persistence<C>>, flag: ShutdownFlag)
      ensures this.persistences == persistences && this.flag == flag && token.None?
    {
      this.persistences := persistences;
      this.flag := flag;
      token := None;
    }

    /** WithToken: from now on the handler asks for this token. */
    method WithToken(t: string)
      modifies this
      ensures token == Some(t)
    {
      token := Some(t);
    }

    /** IsShuttingDown: true and the shutting-down response exactly when the flag is set. */
    function IsShuttingDown(): (r: (bool, Option<HealthResponse<C>>))
      reads flag
      ensures r.0 == flag.isShuttingDown
      ensures r.0 ==> r.1 == Some(HealthResponse(ShuttingDownMessage, None))
      ensures !r.0 ==> r.1.None?
    {
      if flag.isShuttingDown then (true, Some(HealthResponse(ShuttingDownMessage, None))) else (false, None)
    }

    /**
     * GetHealth. header is the request's x-health-token header ("" when absent). The list
     * is pinged, and so updated in place, only when the token and the flag let the request
     * through.
     */
    method GetHealth(header: string, ping: C -> Option<string>, unauthorized: GoError, unavailable: Error)
      returns (reply: Reply)
      modifies persistences
      ensures reply == HealthReply(token, header, flag.isShuttingDown, old(persistences[..]), ping, unauthorized, unavailable)
      ensures (token.Some? && header != token.value) || flag.isShuttingDown ==> persistences[..] == old(persistences[..])
      ensures !((token.Some? && header != token.value) || flag.isShuttingDown) ==> persistences[..] == PingAll(old(persistences[..]), ping)
    {
      if token.Some? && header != token.value {
        reply := Failed(StatusUnauthorized, Some(unauthorized));
        return;
      }
      var (shuttingDown, _) := IsShuttingDown();
      if shuttingDown {
        var e := AppendMessage(unavailable, [ShuttingDownMessage]);
        reply := Failed(StatusServiceUnavailable, Some(Coded(e)));
        return;
      }
      var ok := Ping(persistences, ping);
      if ok {
        reply := Success(StatusOK, Ok(HealthJson(HealthResponse(HealthyMessage, Some(persistences[..])))));
        return;
      }
      reply := Failed(StatusServiceUnavailable, Some(Coded(SetData(unavailable, HealthJson(HealthResponse(UnhealthyMessage, Some(persistences[..])))))));
    }
  }

  /**
   * NewHealthHandler: a nil list is refused with an error; otherwise a handler over the list,
   * without a token.
   */
  method NewHealthHandler<C>(persistences: array?<Persistence<C>>, flag: ShutdownFlag) returns (r: Result<HealthHandler<C>, GoError>)
    ensures persistences == null ==> r == Err(Plain("persistences can't be nil"))
    ensures persistences != null ==> r.Ok? && fresh(r.value) && r.value.persistences == persistences
                                     && r.value.flag == flag && r.value.token.None?
  {
    if persistences == null {
      return Err(Plain("persistences can't be nil"));
    }
    var h := new HealthHandler(persistences, flag);
    return Ok(h);
  }
}
