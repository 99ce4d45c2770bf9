/**
  The port watcher: the command line decides a port range and which
  ports to list, the sweep sorts each port of the range into busy or free
  by asking `check_port`, and the summary groups the busy ports. The TCP
  connect of `check_port` is a predicate passed in.
*/
module PortWatcher {
  import opened Wrappers

  const MaxPort: int := 65535
  const DefaultStartPort: int := 8000
  const DefaultEndPort: int := 9000

  // ----- The sweep -----

  /**
    The ports of `lo..hi`, ascending, whose `check` answer is wanted: busy
    ones when `busy` is set, free ones when `free` is set.
  */
  function Matching(lo: int, hi: int, check: int -> bool, busy: bool, free: bool): (ps: seq<int>)
    ensures forall i :: 0 <= i < |ps| ==> lo <= ps[i] <= hi
    ensures forall i, j :: 0 <= i < j < |ps| ==> ps[i] < ps[j]
    ensures forall p :: p in ps <==> lo <= p <= hi && ((check(p) && busy) || (!check(p) && free))
    decreases hi - lo
  {
    if hi < lo then []
    else Matching(lo, hi - 1, check, busy, free) + (if (check(hi) && busy) || (!check(hi) && free) then [hi] else [])
  }

  /** Every port of the range is busy or free, so the two lists together have `hi - lo + 1` ports. */
  lemma {:induction false} MatchingSplit(lo: int, hi: int, check: int -> bool)
    requires lo <= hi + 1
    ensures |Matching(lo, hi, check, true, false)| + |Matching(lo, hi, check, false, true)| == hi - lo + 1
    decreases hi - lo
  {
    if lo <= hi {
      MatchingSplit(lo, hi - 1, check);
      var b := |Matching(lo, hi - 1, check, true, false)|;
      var f := |Matching(lo, hi - 1, check, false, true)|;
      assert |Matching(lo, hi, check, true, false)| == b + (if check(hi) then 1 else 0) by {
        MatchingStep(lo, hi, check, true, false);
      }
      assert |Matching(lo, hi, check, false, true)| == f + (if check(hi) then 0 else 1) by {
        MatchingStep(lo, hi, check, false, true);
      }
    }
  }

  /** Listing both kinds lists every port of the range. */
  lemma {:induction false} MatchingAll(lo: int, hi: int, check: int -> bool)
    requires lo <= hi + 1
    ensures |Matching(lo, hi, check, true, true)| == hi - lo + 1
    decreases hi - lo
  {
    if lo <= hi {
      MatchingAll(lo, hi - 1, check);
      MatchingStep(lo, hi, check, true, true);
    }
  }

  /** The last port of a non-empty range adds one entry exactly when it is wanted. */
  lemma MatchingStep(lo: int, hi: int, check: int -> bool, busy: bool, free: bool)
    requires lo <= hi
    ensures |Matching(lo, hi, check, busy, free)| ==
      |Matching(lo, hi - 1, check, busy, free)| + (if (check(hi) && busy) || (!check(hi) && free) then 1 else 0)
  {
  }

  /**
    `scan_ports`: every port from `start` to `end` is checked once, in
    order. `listed` are the ports given a table row, which the verbose
    mode leaves out in favour of the progress bar.
  */
  method ScanPorts(start: int, end: int, check: int -> bool, showFree: bool, showBusy: bool, verbose: bool)
    returns (busyPorts: seq<int>, freePorts: seq<int>, listed: seq<int>)
    ensures busyPorts == Matching(start, end, check, true, false)
    ensures freePorts == Matching(start, end, check, false, true)
    ensures listed == if verbose then [] else Matching(start, end, check, showBusy, showFree)
  {
    busyPorts, freePorts, listed := [], [], [];
    var port := start;
    while port <= end
      invariant port == start || start < port <= end + 1
      invariant busyPorts == Matching(start, port - 1, check, true, false)
      invariant freePorts == Matching(start, port - 1, check, false, true)
      invariant listed == if verbose then [] else Matching(start, port - 1, check, showBusy, showFree)
      decreases end - port
    {
      var isBusy := check(port);
      if isBusy {
        busyPorts := busyPorts + [port];
        if showBusy && !verbose {
          listed := listed + [port];
        }
      } else {
        freePorts := freePorts + [port];
        if showFree && !verbose {
          listed := listed + [port];
        }
      }
      port := port + 1;
    }
  }

  // ----- The command line -----

  /** The parsed options; `port` is `None` when `-p` is not given. */
  datatype Args = Args(start: int, end: int, port: Option<int>,
                       showFree: bool, showAll: bool, verbose: bool,
                       help: bool, manual: bool, examples: bool)

  /** What `main` goes on to do; `Reject` returns 1 before any scan. */
  datatype Plan =
    | ShowManual | ShowExamples | ShowHelp
    | Reject(message: string)
    | Run(start: int, end: int, showBusy: bool, showFree: bool)

  const PortMessage: string := "Error: Port must be between 1 and 65535"
  const RangeMessage: string := "Error: Ports must be between 1 and 65535"
  const OrderMessage: string := "Error: Start port must be <= end port"

  predicate InPortRange(p: int) { 1 <= p <= MaxPort }

  /** The exit code `main` returns without scanning. */
  function ExitCode(plan: Plan): int {
    if plan.Reject? then 1 else 0
  }

  /**
    The part of `main` before the scan. The documentation flags come
    first; `-p 0` counts as absent, as `if args.port:` does; then the
    display mode, where `-a` wins over `-f`.
  */
  method Decide(a: Args) returns (plan: Plan)
    ensures a.manual ==> plan == ShowManual
    ensures !a.manual && a.examples ==> plan == ShowExamples
    ensures !a.manual && !a.examples && a.help ==> plan == ShowHelp
    ensures !a.manual && !a.examples && !a.help && a.port.Some? && a.port.value != 0 ==>
      if InPortRange(a.port.value) then plan.Run? && plan.start == plan.end == a.port.value
      else plan == Reject(PortMessage)
    ensures !a.manual && !a.examples && !a.help && !(a.port.Some? && a.port.value != 0) ==>
      if !InPortRange(a.start) || !InPortRange(a.end) then plan == Reject(RangeMessage)
      else if a.start > a.end then plan == Reject(OrderMessage)
      else plan.Run? && plan.start == a.start && plan.end == a.end
    ensures plan.Run? ==> 1 <= plan.start <= plan.end <= MaxPort
    ensures plan.Run? ==> plan.showBusy == (a.showAll || !a.showFree) && plan.showFree == (a.showAll || a.showFree)
    ensures plan.Run? ==> plan.showBusy || plan.showFree
  {
    if a.manual {
      return ShowManual;
    }
    if a.examples {
      return ShowExamples;
    }
    if a.help {
      return ShowHelp;
    }
    var startPort, endPort;
    if a.port.Some? && a.port.value != 0 {
      if !(1 <= a.port.value <= MaxPort) {
        return Reject(PortMessage);
      }
      startPort, endPort := a.port.value, a.port.value;
    } else {
      if !(1 <= a.start <= MaxPort) || !(1 <= a.end <= MaxPort) {
        return Reject(RangeMessage);
      }
      if a.start > a.end {
        return Reject(OrderMessage);
      }
      startPort, endPort := a.start, a.end;
    }
    var showBusy := true;
    var showFree := false;
    if a.showAll {
      showBusy := true;
      showFree := true;
    } else if a.showFree {
      showBusy := false;
      showFree := true;
    }
    return Run(startPort, endPort, showBusy, showFree);
  }

  /** With no options the default range 8000-9000 is swept and busy ports listed. */
  method DefaultArgs() returns (plan: Plan)
    ensures plan == Run(DefaultStartPort, DefaultEndPort, true, false)
  {
    plan := Decide(Args(DefaultStartPort, DefaultEndPort, None, false, false, false, false, false, false));
  }

  // ----- The summary -----

  /** `busy[i:i+5]` for `i` in `range(0, len(busy), 5)`. */
  function Chunks(s: seq<int>): (lines: seq<seq<int>>)
    ensures forall i :: 0 <= i < |lines| ==> 0 < |lines[i]| <= 5
    ensures forall i :: 0 <= i < |lines| - 1 ==> |lines[i]| == 5
    ensures |lines| == (|s| + 4) / 5
    decreases |s|
  {
    if s == [] then []
    else if |s| <= 5 then [s]
    else [s[..5]] + Chunks(s[5..])
  }

  /** The chunks from position `i` on: the line starting at `i`, then the chunks after it. */
  lemma ChunkAt(s: seq<int>, i: nat)
    requires i < |s|
    ensures var j := if i + 5 < |s| then i + 5 else |s|;
      Chunks(s[i..]) == [s[i..j]] + Chunks(s[j..])
  {
    var j := if i + 5 < |s| then i + 5 else |s|;
    var rest := s[i..];
    if |rest| > 5 {
      assert rest[..5] == s[i..j] && rest[5..] == s[j..];
    } else {
      assert rest == s[i..j] && s[j..] == [];
    }
  }

  function Flatten(lines: seq<seq<int>>): seq<int> {
    if lines == [] then [] else lines[0] + Flatten(lines[1..])
  }

  /** The lines hold the busy ports in order, each once. */
  lemma {:induction false} ChunksFlatten(s: seq<int>)
    ensures Flatten(Chunks(s)) == s
    decreases |s|
  {
    if |s| > 5 {
      ChunksFlatten(s[5..]);
      var lines := Chunks(s);
      assert lines[1..] == Chunks(s[5..]);
      assert s == s[..5] + s[5..];
    }
  }

  /** How the busy ports are shown. */
  datatype BusyReport =
    | NoneBusy
    | Grouped(lines: seq<seq<int>>)
    | FirstThree(first: seq<int>, total: nat)

  /**
    `print_summary`: up to 20 busy ports are shown five to a line, more
    than that as the first three and the count; recommendations follow
    when some but not all of the scanned ports are busy.
  */
  method Summary(busyPorts: seq<int>, freePorts: seq<int>) returns (total: nat, report: BusyReport, recommend: bool)
    ensures total == |busyPorts| + |freePorts|
    ensures busyPorts == [] <==> report == NoneBusy
    ensures 0 < |busyPorts| <= 20 ==> report == Grouped(Chunks(busyPorts))
    ensures |busyPorts| > 20 ==> report == FirstThree(busyPorts[..3], |busyPorts|)
    ensures recommend <==> busyPorts != [] && freePorts != []
  {
    total := |busyPorts| + |freePorts|;
    if busyPorts != [] {
      if |busyPorts| <= 20 {
        var lines := [];
        var i := 0;
        while i < |busyPorts|
          invariant 0 <= i <= |busyPorts|
          invariant lines + Chunks(busyPorts[i..]) == Chunks(busyPorts)
          decreases |busyPorts| - i
        {
          var j := if i + 5 < |busyPorts| then i + 5 else |busyPorts|;
          ChunkAt(busyPorts, i);
          lines := lines + [busyPorts[i..j]];
          i := j;
        }
        assert busyPorts[i..] == [];
        report := Grouped(lines);
      } else {
        report := FirstThree([busyPorts[0], busyPorts[1], busyPorts[2]], |busyPorts|);
        assert busyPorts[..3] == [busyPorts[0], busyPorts[1], busyPorts[2]];
      }
    } else {
      report := NoneBusy;
    }
    recommend := busyPorts != [] && |busyPorts| < total;
  }

  /**
    After a sweep, recommendations appear exactly when the range holds
    both a busy port and a free one.
  */
  lemma RecommendAfterScan(start: int, end: int, check: int -> bool)
    ensures var busy := Matching(start, end, check, true, false);
      var free := Matching(start, end, check, false, true);
      (busy != [] && free != []) <==>
      (exists p :: start <= p <= end && check(p)) && (exists q :: start <= q <= end && !check(q))
  {
    BusyExists(start, end, check);
    FreeExists(start, end, check);
  }

  /** The busy list is non-empty exactly when some port of the range is busy. */
  lemma BusyExists(lo: int, hi: int, check: int -> bool)
    ensures Matching(lo, hi, check, true, false) != [] <==> exists p :: lo <= p <= hi && check(p)
  {
    var ps := Matching(lo, hi, check, true, false);
    if ps != [] {
      assert ps[0] in ps;
    }
  }

  /** The free list is non-empty exactly when some port of the range is free. */
  lemma FreeExists(lo: int, hi: int, check: int -> bool)
    ensures Matching(lo, hi, check, false, true) != [] <==> exists p :: lo <= p <= hi && !check(p)
  {
    var ps := Matching(lo, hi, check, false, true);
    if ps != [] {
      assert ps[0] in ps;
    }
  }
}
