/** Properties of `kahawai_init` and the handle store: the early return
    never reaches the transport, repeating a call changes nothing, earlier
    calls' session caps and DMA settings leak into later ones, and over any
    sequence of this file's calls the static record stays well formed and
    the getter returns the last value set. */
module KahawaiFacts {
  import opened CTypes
  import opened KahawaiInit

  /** A null or unparsable address returns before `mtl_init`: the outcome
      does not depend on the transport at all. */
  lemma FailedInitSkipsTransport(s: Plugin, args: InitArgs, f: Params -> Ptr, g: Params -> Ptr)
    requires !AddrParses(args.localAddr)
    ensures Init(s, args, f) == Init(s, args, g)
    ensures Init(s, args, f).handle == Null
  {
  }

  /** A successful call hands the transport exactly the record it leaves
      behind, and that record is built from the arguments and the earlier
      record only. */
  lemma SuccessfulInitUsesFinalParams(s: Plugin, args: InitArgs, f: Params -> Ptr)
    requires AddrParses(args.localAddr)
    ensures var r := Init(s, args, f); r.handle == f(r.state.param)
    ensures forall g: Params -> Ptr :: Init(s, args, g).state == Init(s, args, f).state
  {
  }

  /** Calling `kahawai_init` again with the same arguments leaves the
      static record as the first call left it and returns the same value,
      given that `mtl_init` does not write through its `&param` argument
      and gives the same handle for the same record. */
  lemma InitIdempotent(s: Plugin, args: InitArgs, f: Params -> Ptr)
    ensures var r1 := Init(s, args, f); Init(r1.state, args, f) == r1
  {
    var r1 := Init(s, args, f);
    var r2 := Init(r1.state, args, f);
    assert r2.state.param.sipAddr == r1.state.param.sipAddr by {
      match args.localAddr
      case NullAddr =>
      case Scanned(octets) =>
        var n := |octets|;
        assert r2.state.param.sipAddr == r2.state.param.sipAddr[..n] + r2.state.param.sipAddr[n..];
        assert r1.state.param.sipAddr == r1.state.param.sipAddr[..n] + r1.state.param.sipAddr[n..];
    }
  }

  /** The static record is never reset: a session cap set by an earlier
      successful call survives a later call that passes a non-positive
      count, and so does its DMA device. */
  lemma EarlierSettingsSurvive(s: Plugin, a1: InitArgs, a2: InitArgs, f: Params -> Ptr)
    requires AddrParses(a1.localAddr) && a1.encSessionCnt > 0 && a1.dmaDev.Some?
    requires a2.encSessionCnt <= 0 && a2.dmaDev.None?
    ensures var p := Init(Init(s, a1, f).state, a2, f).state.param;
      && p.txSessionsCntMax == a1.encSessionCnt as int
      && p.numDmaDevPort == 1
      && p.dmaDevPort == Truncate(a1.dmaDev.value, MTL_PORT_MAX_LEN)
  {
  }

  /** The getter returns what the setter stored, and setting changes
      nothing but the handle. */
  lemma GetAfterSet(s: Plugin, h: Ptr)
    ensures GetHandle(SetHandle(s, h)) == h
    ensures SetHandle(s, h).param == s.param
    ensures SetHandle(SetHandle(s, h), GetHandle(s)) == s
  {
  }

  /** What holds of every state reachable through this file's functions:
      the zero-initialised record is only ever overwritten by
      `kahawai_init`'s fixed values, by positive caps and by a named DMA
      device, and the session counter keeps its initial 0 because no
      function here writes it. */
  ghost predicate Valid(s: Plugin)
  {
    var p := s.param;
    && p.numPorts <= 1
    && (p.flags == {} || p.flags == {BindNuma, DevAutoStartStop})
    && (p.flags != {} ==> p.logLevel == Debug)
    && p.priv == Null && p.ptpGetTimeFn == Null && p.lcores == Null
    && p.txSessionsCntMax >= 0 && p.rxSessionsCntMax >= 0
    && p.numDmaDevPort <= 1
    && (p.numDmaDevPort == 0 ==> p.dmaDevPort == [])
    && (p.flags == {} ==> p.txSessionsCntMax == 0 && p.rxSessionsCntMax == 0 && p.numDmaDevPort == 0)
    && s.activeSessionCnt == 0
  }

  lemma InitialValid()
    ensures Valid(INITIAL)
  {
  }

  /** One call into the file. */
  datatype Call = InitCall(args: InitArgs) | SetHandleCall(handle: Ptr)

  function Step(s: Plugin, c: Call, mtlInit: Params -> Ptr): (s': Plugin)
  {
    match c
    case InitCall(args) => Init(s, args, mtlInit).state
    case SetHandleCall(h) => SetHandle(s, h)
  }

  /** The state after the calls, first call first. */
  function Run(s: Plugin, calls: seq<Call>, mtlInit: Params -> Ptr): (s': Plugin)
    decreases |calls|
  {
    if |calls| == 0 then s else Run(Step(s, calls[0], mtlInit), calls[1..], mtlInit)
  }

  /** Reference for the getter: the handle of the last set call, searched
      from the end, or `dflt` when there is none. */
  function LastSetHandle(calls: seq<Call>, dflt: Ptr): (h: Ptr)
    decreases |calls|
  {
    if |calls| == 0 then dflt
    else if calls[|calls| - 1].SetHandleCall? then calls[|calls| - 1].handle
    else LastSetHandle(calls[..|calls| - 1], dflt)
  }

  lemma StepPreservesValid(s: Plugin, c: Call, mtlInit: Params -> Ptr)
    requires Valid(s)
    ensures Valid(Step(s, c, mtlInit))
  {
  }

  /** Every state reachable through this file's functions is valid. */
  lemma {:induction false} RunPreservesValid(s: Plugin, calls: seq<Call>, mtlInit: Params -> Ptr)
    requires Valid(s)
    ensures Valid(Run(s, calls, mtlInit))
    decreases |calls|
  {
    if |calls| > 0 {
      StepPreservesValid(s, calls[0], mtlInit);
      RunPreservesValid(Step(s, calls[0], mtlInit), calls[1..], mtlInit);
    }
  }

  /** Looking for the last set call from the end agrees with remembering
      the latest one from the front. */
  lemma {:induction false} LastSetHandleCons(c: Call, rest: seq<Call>, dflt: Ptr)
    ensures LastSetHandle([c] + rest, dflt)
         == LastSetHandle(rest, if c.SetHandleCall? then c.handle else dflt)
    decreases |rest|
  {
    var calls := [c] + rest;
    if |rest| > 0 {
      assert calls[|calls| - 1] == rest[|rest| - 1];
      assert calls[..|calls| - 1] == [c] + rest[..|rest| - 1];
      LastSetHandleCons(c, rest[..|rest| - 1], dflt);
    }
  }

  /** `kahawai_get_handle` after any sequence of calls returns the value of
      the last `kahawai_set_handle`, or the initial handle if there was
      none: `kahawai_init` never stores what it returns. */
  lemma {:induction false} GetHandleIsLastSet(s: Plugin, calls: seq<Call>, mtlInit: Params -> Ptr)
    ensures GetHandle(Run(s, calls, mtlInit)) == LastSetHandle(calls, s.sharedHandle)
    decreases |calls|
  {
    if |calls| > 0 {
      var c := calls[0];
      GetHandleIsLastSet(Step(s, c, mtlInit), calls[1..], mtlInit);
      assert calls == [c] + calls[1..];
      LastSetHandleCons(c, calls[1..], s.sharedHandle);
    }
  }
}
