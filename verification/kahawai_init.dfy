/** The plugin's process-wide transport state and its initialisation:
    the static `mtl_init_params` record that `kahawai_init` fills in before
    handing it to the transport library, and the one-cell store behind
    `kahawai_get_handle` / `kahawai_set_handle`. */
module KahawaiInit {
  import opened CTypes

  /** Length of a port or DMA device name buffer in the transport's
      parameter record. */
  const MTL_PORT_MAX_LEN: nat := 64
  /** Octets in an IPv4 source address. */
  const MTL_IP_ADDR_LEN: nat := 4

  type PortName = s: string | |s| <= MTL_PORT_MAX_LEN
  type IpAddr = s: seq<bv8> | |s| == MTL_IP_ADDR_LEN witness [0, 0, 0, 0]
  /** The octets `sscanf("%hhu.%hhu.%hhu.%hhu")` managed to convert, in
      order; it stores each one as it goes and stops at the first failure. */
  type ScanOctets = s: seq<bv8> | |s| <= MTL_IP_ADDR_LEN

  datatype InitFlag = BindNuma | DevAutoStartStop
  datatype LogLevel = Debug | Info | Notice | Warning | Err | Crit

  /** The fields of `struct mtl_init_params` this file writes, for the
      primary port `MTL_PORT_P` and DMA device 0. */
  datatype Params = Params(
    numPorts: nat,
    port: PortName,
    sipAddr: IpAddr,
    txSessionsCntMax: int,
    rxSessionsCntMax: int,
    flags: set<InitFlag>,
    logLevel: LogLevel,
    priv: Ptr,
    ptpGetTimeFn: Ptr,
    lcores: Ptr,
    numDmaDevPort: nat,
    dmaDevPort: PortName)

  /** `static struct mtl_init_params param = {0}`. The log-level enumerator
      with value 0 is the transport's debug level. */
  const ZERO_PARAMS: Params :=
    Params(0, [], [0, 0, 0, 0], 0, 0, {}, Debug, Null, Null, Null, 0, [])

  /** The file-scope state: the statics `param` and
      `shared_st_handle`, and the exported global `active_session_cnt`,
      which this file declares but never writes. */
  datatype Plugin = Plugin(param: Params, sharedHandle: Ptr, activeSessionCnt: nat)

  const INITIAL: Plugin := Plugin(ZERO_PARAMS, Null, 0)

  /** The `local_addr` argument: a null pointer, or a string of which only
      what `sscanf` converts matters. */
  datatype LocalAddr = NullAddr | Scanned(octets: ScanOctets)

  /** The arguments of `kahawai_init`; `dmaDev == None` is a null `dma_dev`. */
  datatype InitArgs = InitArgs(
    port: string,
    localAddr: LocalAddr,
    encSessionCnt: int32,
    decSessionCnt: int32,
    dmaDev: Option<string>)

  /** The static state after the call, and the handle it returns. */
  datatype InitResult = InitResult(state: Plugin, handle: Ptr)

  /** `sscanf` returned `MTL_IP_ADDR_LEN`: all four octets were converted. */
  predicate AddrParses(a: LocalAddr)
  {
    a.Scanned? && |a.octets| == MTL_IP_ADDR_LEN
  }

  /** The address field after `sscanf` has stored the octets it converted. */
  function StoreOctets(addr: IpAddr, octets: ScanOctets): (r: IpAddr)
    ensures r[..|octets|] == octets
    ensures r[|octets|..] == addr[|octets|..]
  {
    octets + addr[|octets|..]
  }

  /** `kahawai_init`, with the transport's `mtl_init` passed in as an
      uninterpreted function of the finished parameter record. */
  function Init(s: Plugin, args: InitArgs, mtlInit: Params -> Ptr): (r: InitResult)
    // Only `param` is written; the shared handle is the caller's business.
    ensures r.state.sharedHandle == s.sharedHandle
    ensures r.state.activeSessionCnt == s.activeSessionCnt
    // Done before the address is looked at, so on every path.
    ensures r.state.param.numPorts == 1
    ensures r.state.param.port == Truncate(args.port, MTL_PORT_MAX_LEN)
    // Whatever `sscanf` converted has been stored, even on failure.
    ensures args.localAddr.NullAddr? ==> r.state.param.sipAddr == s.param.sipAddr
    ensures args.localAddr.Scanned? ==>
      var n := |args.localAddr.octets|;
      && r.state.param.sipAddr[..n] == args.localAddr.octets
      && r.state.param.sipAddr[n..] == s.param.sipAddr[n..]
    // A null or unparsable address: NULL, and nothing else assembled.
    ensures !AddrParses(args.localAddr) ==>
      && r.handle == Null
      && r.state.param.(numPorts := s.param.numPorts, port := s.param.port, sipAddr := s.param.sipAddr)
         == s.param
    // A parsed address: the record is completed and handed to `mtl_init`.
    ensures AddrParses(args.localAddr) ==>
      && r.handle == mtlInit(r.state.param)
      && r.state.param.sipAddr == args.localAddr.octets
      && r.state.param.flags == {BindNuma, DevAutoStartStop}
      && r.state.param.logLevel == Debug
      && r.state.param.priv == Null
      && r.state.param.ptpGetTimeFn == Null
      && r.state.param.lcores == Null
    // Session caps: overwritten only by a positive argument.
    ensures AddrParses(args.localAddr) && args.encSessionCnt > 0 ==>
      r.state.param.txSessionsCntMax == args.encSessionCnt as int
    ensures AddrParses(args.localAddr) && args.decSessionCnt > 0 ==>
      r.state.param.rxSessionsCntMax == args.decSessionCnt as int
    ensures args.encSessionCnt <= 0 ==> r.state.param.txSessionsCntMax == s.param.txSessionsCntMax
    ensures args.decSessionCnt <= 0 ==> r.state.param.rxSessionsCntMax == s.param.rxSessionsCntMax
    // DMA: configured only when a device is named.
    ensures AddrParses(args.localAddr) && args.dmaDev.Some? ==>
      && r.state.param.numDmaDevPort == 1
      && r.state.param.dmaDevPort == Truncate(args.dmaDev.value, MTL_PORT_MAX_LEN)
    ensures args.dmaDev.None? ==>
      && r.state.param.numDmaDevPort == s.param.numDmaDevPort
      && r.state.param.dmaDevPort == s.param.dmaDevPort
  {
    var p := s.param.(numPorts := 1);
    var p := p.(port := Truncate(args.port, MTL_PORT_MAX_LEN));
    match args.localAddr
    case NullAddr =>
      InitResult(s.(param := p), Null)
    case Scanned(octets) =>
      var p := p.(sipAddr := StoreOctets(p.sipAddr, octets));
      if |octets| != MTL_IP_ADDR_LEN then
        InitResult(s.(param := p), Null)
      else
        var p := if args.encSessionCnt > 0 then p.(txSessionsCntMax := args.encSessionCnt as int) else p;
        var p := if args.decSessionCnt > 0 then p.(rxSessionsCntMax := args.decSessionCnt as int) else p;
        var p := p.(flags := {BindNuma, DevAutoStartStop}, logLevel := Debug);
        var p := p.(priv := Null, ptpGetTimeFn := Null, lcores := Null);
        var p := if args.dmaDev.Some? then
            p.(numDmaDevPort := 1, dmaDevPort := Truncate(args.dmaDev.value, MTL_PORT_MAX_LEN))
          else p;
        InitResult(s.(param := p), mtlInit(p))
  }

  /** `kahawai_get_handle`. */
  function GetHandle(s: Plugin): (h: Ptr)
    ensures h == s.sharedHandle
  {
    s.sharedHandle
  }

  /** `kahawai_set_handle`. */
  function SetHandle(s: Plugin, h: Ptr): (s': Plugin)
    ensures s'.sharedHandle == h
    ensures s'.param == s.param && s'.activeSessionCnt == s.activeSessionCnt
  {
    s.(sharedHandle := h)
  }
}
