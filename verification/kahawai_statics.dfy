/** The same file-scope state (the statics `param` and `shared_st_handle`,
    and the global `active_session_cnt`) as mutable fields of one object,
    with the C entry points as methods over them. Each method is the
    corresponding function of `KahawaiInit` applied to the object's current
    state, and each keeps the invariant `KahawaiFacts.Valid`. */
module KahawaiStatics {
  import opened CTypes
  import opened KahawaiInit
  import KahawaiFacts

  class Statics {
    var param: Params
    var sharedHandle: Ptr
    var activeSessionCnt: nat

    function State(): (s: Plugin)
      reads this
    {
      Plugin(param, sharedHandle, activeSessionCnt)
    }

    constructor ()
      ensures State() == INITIAL
    {
      param := ZERO_PARAMS;
      sharedHandle := Null;
      activeSessionCnt := 0;
    }

    /** `kahawai_init`: rewrites `param` and returns what `mtl_init` gives,
        or `Null` on a bad address; the shared handle is left alone. */
    method KahawaiInit(args: InitArgs, mtlInit: Params -> Ptr) returns (h: Ptr)
      modifies this
      ensures InitResult(State(), h) == Init(old(State()), args, mtlInit)
      ensures sharedHandle == old(sharedHandle)
      ensures !AddrParses(args.localAddr) ==> h == Null
      ensures KahawaiFacts.Valid(old(State())) ==> KahawaiFacts.Valid(State())
    {
      if KahawaiFacts.Valid(State()) {
        KahawaiFacts.StepPreservesValid(State(), KahawaiFacts.InitCall(args), mtlInit);
      }
      var r := Init(State(), args, mtlInit);
      param := r.state.param;
      h := r.handle;
    }

    /** `kahawai_get_handle`. */
    method KahawaiGetHandle() returns (h: Ptr)
      ensures h == sharedHandle
    {
      h := sharedHandle;
    }

    /** `kahawai_set_handle`: only the handle changes. */
    method KahawaiSetHandle(h: Ptr)
      modifies this
      ensures sharedHandle == h
      ensures param == old(param) && activeSessionCnt == old(activeSessionCnt)
      ensures KahawaiFacts.Valid(old(State())) ==> KahawaiFacts.Valid(State())
    {
      sharedHandle := h;
    }
  }
}
