/** `network_scan`: the address range, the channels and the goroutines' shared
    variables, executed one atomic step at a time under an arbitrary schedule. */
module NetworkScan {
  import opened Common
  import opened ScanPool

  const WORKERS: nat := 32
  const CAPACITY: nat := 256

  /** The address the scan dials for host number `i` of a subnet. */
  function Address(subnet: string, i: nat): string {
    subnet + "." + Decimal(i)
  }

  /** The job list in the order the producer's two nested loops generate it. */
  function HostJobs(subnet: string, port: int, lo: nat, hi: int): seq<Job>
    decreases hi - lo
  {
    if lo > hi then [] else [Job(Address(subnet, lo), port)] + HostJobs(subnet, port, lo + 1, hi)
  }

  function AllJobs(subnet: string, ports: seq<int>, lo: nat, hi: int): seq<Job> {
    if ports == [] then [] else HostJobs(subnet, ports[0], lo, hi) + AllJobs(subnet, ports[1..], lo, hi)
  }

  function FirstHost(startIP: int): (lo: nat)
    ensures lo >= 1
  {
    if startIP <= 0 then 1 else startIP
  }

  function LastHost(endIP: int): (hi: int)
    ensures 1 <= hi <= 254
  {
    if endIP <= 0 || endIP > 254 then 254 else endIP
  }

  lemma AddressInjective(subnet: string, i: nat, k: nat)
    requires Address(subnet, i) == Address(subnet, k)
    ensures i == k
  {
    assert Address(subnet, i)[|subnet| + 1..] == Decimal(i);
    assert Address(subnet, k)[|subnet| + 1..] == Decimal(k);
    DecimalInjective(i, k);
  }

  lemma {:induction false} HostJobsCount(subnet: string, port: int, lo: nat, hi: int, q: int, i: nat)
    ensures multiset(HostJobs(subnet, port, lo, hi))[Job(Address(subnet, i), q)]
         == if q == port && lo <= i <= hi then 1 else 0
    decreases hi - lo
  {
    if lo <= hi {
      HostJobsCount(subnet, port, lo + 1, hi, q, i);
      if Address(subnet, lo) == Address(subnet, i) {
        AddressInjective(subnet, lo, i);
      }
      hide Address;
      var rest, j := HostJobs(subnet, port, lo + 1, hi), Job(Address(subnet, i), q);
      assert multiset([Job(Address(subnet, lo), port)] + rest)[j]
          == multiset{Job(Address(subnet, lo), port)}[j] + multiset(rest)[j];
    }
  }

  ghost predicate OnSubnet(subnet: string, lo: nat, hi: int, j: Job) {
    exists i: nat :: lo <= i <= hi && j.host == Address(subnet, i)
  }

  /** Every port is tried on every host of the range, once per time the port is listed. */
  lemma {:induction false} AllJobsCount(subnet: string, ports: seq<int>, lo: nat, hi: int, q: int, i: nat)
    ensures multiset(AllJobs(subnet, ports, lo, hi))[Job(Address(subnet, i), q)]
         == if lo <= i <= hi then multiset(ports)[q] else 0
  {
    if ports != [] {
      assert ports == [ports[0]] + ports[1..];
      HostJobsCount(subnet, ports[0], lo, hi, q, i);
      AllJobsCount(subnet, ports[1..], lo, hi, q, i);
    }
  }

  lemma {:induction false} AllJobsInRange(subnet: string, ports: seq<int>, lo: nat, hi: int)
    ensures forall j :: j in AllJobs(subnet, ports, lo, hi) ==> j.port in ports && OnSubnet(subnet, lo, hi, j)
  {
    if ports != [] {
      HostJobsInRange(subnet, ports[0], lo, hi);
      AllJobsInRange(subnet, ports[1..], lo, hi);
    }
  }

  lemma {:induction false} HostJobsInRange(subnet: string, port: int, lo: nat, hi: int)
    ensures forall j :: j in HostJobs(subnet, port, lo, hi) ==> j.port == port && OnSubnet(subnet, lo, hi, j)
    decreases hi - lo
  {
    if lo <= hi {
      HostJobsInRange(subnet, port, lo + 1, hi);
    }
  }

  // ---- the shared state ----

  class Queue {
    var buffer: seq<Job>
    var closed: bool
    const capacity: nat

    ghost function View(): Channel
      reads this
    {
      Channel(buffer, closed)
    }

    constructor (capacity: nat)
      ensures View() == Channel([], false) && this.capacity == capacity
    {
      buffer, closed, this.capacity := [], false, capacity;
    }

    /** `requires !closed` is what the Go runtime enforces with a panic. */
    method Send(job: Job)
      requires !closed && |buffer| < capacity
      modifies this
      ensures View() == Channel(old(buffer) + [job], false)
    {
      buffer := buffer + [job];
    }

    method Receive() returns (job: Job)
      requires buffer != []
      modifies this
      ensures [job] + buffer == old(buffer) && closed == old(closed)
      ensures View() == Channel(old(buffer)[1..], old(closed))
    {
      job := buffer[0];
      buffer := buffer[1..];
    }

    method Close()
      requires !closed
      modifies this
      ensures View() == Channel(old(buffer), true)
    {
      closed := true;
    }
  }

  class Scan {
    ghost const config: Config
    const dial: Job -> bool
    const jobs: Queue
    const results: Queue
    var todo: seq<Job>
    var producing: bool
    var workers: seq<Worker>
    var wg: int
    var waiting: bool
    var found: seq<Job>
    var collecting: bool
    ghost var refused: multiset<Job>

    ghost function View(): State
      reads this, jobs, results
    {
      State(todo, producing, jobs.View(), workers, wg, waiting, results.View(), found, collecting, refused, false)
    }

    ghost predicate Valid()
      reads this, jobs, results
    {
      && jobs != results
      && jobs.capacity == config.capacity && results.capacity == config.capacity
      && config.accepts == dial
      && config.workers >= 1 && config.capacity >= 1
      && Inv(config, View())
    }

    constructor (workerCount: nat, capacity: nat, work: seq<Job>, dial: Job -> bool)
      requires workerCount >= 1 && capacity >= 1
      ensures Valid() && fresh(jobs) && fresh(results)
      ensures config == Config(workerCount, capacity, work, dial)
      ensures View() == Init(config)
    {
      config := Config(workerCount, capacity, work, dial);
      this.dial := dial;
      jobs := new Queue(capacity);
      results := new Queue(capacity);
      todo, producing := work, true;
      workers, wg, waiting := seq(workerCount, _ => Idle), workerCount, true;
      found, collecting, refused := [], true, multiset{};
      new;
      InitInv(config);
    }

    /** One turn of the producer goroutine: queue the next job, or close the channel after the last. */
    method ProducerStep()
      requires Valid() && producing && (todo == [] || |jobs.buffer| < jobs.capacity)
      modifies this, jobs
      ensures Valid()
      ensures View() == Step(config, old(View()), if old(todo) == [] then CloseJobs else Produce)
    {
      StepInv(config, View(), if todo == [] then CloseJobs else Produce);
      if todo == [] {
        jobs.Close();
        producing := false;
      } else {
        jobs.Send(todo[0]);
        todo := todo[1..];
      }
    }

    /** A worker receives from `jobs`, or leaves its range loop and runs `wg.Done()`. */
    method WorkerReceive(w: nat)
      requires Valid() && w < |workers| && workers[w].Idle? && (jobs.buffer != [] || jobs.closed)
      modifies this, jobs
      ensures Valid()
      ensures View() == Step(config, old(View()), if old(jobs.buffer) == [] then Exit(w) else Take(w))
    {
      hide Inv;
      StepInv(config, View(), if jobs.buffer == [] then Exit(w) else Take(w));
      if jobs.buffer == [] {
        workers := workers[w := Exited];
        wg := wg - 1;
      } else {
        var job := jobs.Receive();
        workers := workers[w := Dialing(job)];
      }
    }

    method WorkerDial(w: nat)
      requires Valid() && w < |workers| && workers[w].Dialing?
      modifies this
      ensures Valid()
      ensures View() == Step(config, old(View()), Dial(w))
    {
      hide Inv;
      StepInv(config, View(), Dial(w));
      var job := workers[w].job;
      if dial(job) {
        workers := workers[w := Sending(job)];
      } else {
        workers := workers[w := Idle];
        refused := refused + multiset{job};
      }
    }

    method WorkerSend(w: nat)
      requires Valid() && w < |workers| && workers[w].Sending? && |results.buffer| < results.capacity
      modifies this, results
      ensures Valid()
      ensures View() == Step(config, old(View()), Send(w))
    {
      StepInv(config, View(), Send(w));
      WorkerBusyOpen(config, View(), w);
      results.Send(workers[w].job);
      workers := workers[w := Idle];
    }

    method CloserStep()
      requires Valid() && waiting && wg == 0
      modifies this, results
      ensures Valid()
      ensures View() == Step(config, old(View()), CloseResults)
    {
      StepInv(config, View(), CloseResults);
      results.Close();
      waiting := false;
    }

    /** The collector takes a result, or its range loop ends. */
    method CollectorStep()
      requires Valid() && collecting && (results.buffer != [] || results.closed)
      modifies this, results
      ensures Valid()
      ensures View() == Step(config, old(View()), if old(results.buffer) == [] then Finish else Collect)
    {
      StepInv(config, View(), if results.buffer == [] then Finish else Collect);
      if results.buffer == [] {
        collecting := false;
      } else {
        var r := results.Receive();
        found := found + [r];
      }
    }

    method Perform(a: Action)
      requires Valid() && Enabled(config, View(), a)
      modifies this, jobs, results
      ensures Valid() && View() == Step(config, old(View()), a)
    {
      OpenWhileRunning(config, View());
      match a
      case Produce => ProducerStep();
      case CloseJobs => ProducerStep();
      case Take(w) => WorkerReceive(w);
      case Exit(w) => WorkerReceive(w);
      case Dial(w) => WorkerDial(w);
      case Send(w) => WorkerBusyOpen(config, View(), w); WorkerSend(w);
      case CloseResults => CloserStep();
      case Collect => CollectorStep();
      case Finish => CollectorStep();
    }

    /** Runs the goroutines to the end. `schedule` proposes which one moves next; where its
        proposal is blocked, or it has run out, some goroutine that can move does. */
    method Run(schedule: seq<Action>)
      requires Valid() && View() == Init(config)
      modifies this, jobs, results
      ensures Valid() && !collecting
      ensures jobs.View() == Channel([], true) && results.View() == Channel([], true)
      ensures multiset(found) == multiset(Accepted(config, config.jobs))
    {
      var next := 0;
      while collecting
        invariant Valid()
        decreases Measure(View())
      {
        var a;
        if next < |schedule| && IsEnabled(schedule[next]) {
          a := schedule[next];
        } else {
          a := Choose();
        }
        next := next + 1;
        StepInv(config, View(), a);
        Perform(a);
      }
      CollectedAll(config, View());
    }

    predicate IsEnabled(a: Action)
      requires Valid()
      reads this, jobs, results
      ensures IsEnabled(a) <==> Enabled(config, View(), a)
    {
      OpenWhileRunning(config, View());
      match a
      case Produce => producing && todo != [] && |jobs.buffer| < jobs.capacity
      case CloseJobs => producing && todo == []
      case Take(w) => w < |workers| && workers[w].Idle? && jobs.buffer != []
      case Exit(w) => w < |workers| && workers[w].Idle? && jobs.buffer == [] && jobs.closed
      case Dial(w) => w < |workers| && workers[w].Dialing?
      case Send(w) => w < |workers| && workers[w].Sending? && |results.buffer| < results.capacity
      case CloseResults => waiting && wg == 0
      case Collect => collecting && results.buffer != []
      case Finish => collecting && results.buffer == [] && results.closed
    }

    method Choose() returns (a: Action)
      requires Valid() && collecting
      ensures Enabled(config, View(), a)
    {
      ghost var p := Progress(config, View());
      var busy, idle := Busy(workers), FirstIdle(workers);
      if results.buffer != [] { a := Collect; }
      else if busy >= 0 { a := if workers[busy].Dialing? then Dial(busy) else Send(busy); }
      else if jobs.buffer != [] { a := Take(0); }
      else if producing { a := if todo == [] then CloseJobs else Produce; }
      else if idle >= 0 { a := Exit(idle); }
      else { a := if waiting then CloseResults else Finish; }
      assert a == p;
    }
  }

  lemma WorkerBusyOpen(c: Config, s: State, w: nat)
    requires Inv(c, s) && w < |s.workers| && !s.workers[w].Exited?
    ensures !s.results.closed
  {
    NobodyLive(s.workers);
  }

  lemma OpenWhileRunning(c: Config, s: State)
    requires Inv(c, s)
    ensures s.producing ==> !s.jobs.closed
    ensures s.waiting ==> !s.results.closed
    ensures forall w :: 0 <= w < |s.workers| && s.workers[w].Sending? ==> !s.results.closed
  {
    NobodyLive(s.workers);
  }

  // ---- the request ----

  datatype Response = Failed | Found(hosts: seq<Job>)

  /** Host `i` is asked for: not before the start, if one is given, and not after the end, if that is a
      host number; and it is one of 1 to 254. */
  predicate Requested(startIP: int, endIP: int, i: nat) {
    && 1 <= i <= 254
    && startIP <= i
    && (1 <= endIP <= 254 ==> i <= endIP)
  }

  /** `hosts` lists exactly the pairs of a listed port and a requested host that accept a dial, each as
      often as its port is listed, and nothing else. */
  ghost predicate ReportsExactly(hosts: seq<Job>, subnet: string, ports: seq<int>, startIP: int, endIP: int,
                                 dial: Job -> bool)
  {
    && (forall port, i: nat ::
          var j := Job(subnet + "." + Decimal(i), port);
          multiset(hosts)[j] == if Requested(startIP, endIP, i) && dial(j) then multiset(ports)[port] else 0)
    && (forall j :: j in hosts ==>
          exists i: nat :: Requested(startIP, endIP, i) && j.host == subnet + "." + Decimal(i))
  }

  lemma RangeIsRequested(startIP: int, endIP: int, i: nat)
    ensures FirstHost(startIP) <= i <= LastHost(endIP) <==> Requested(startIP, endIP, i)
  {
  }

  lemma AcceptedInRange(hosts: seq<Job>, c: Config, subnet: string, ports: seq<int>, lo: nat, hi: int, j: Job)
    requires c.jobs == AllJobs(subnet, ports, lo, hi)
    requires multiset(hosts) == multiset(Accepted(c, c.jobs))
    requires j in hosts
    ensures c.accepts(j) && j.port in ports && OnSubnet(subnet, lo, hi, j)
  {
    assert j in multiset(hosts);
    assert j in multiset(c.jobs);
    AllJobsInRange(subnet, ports, lo, hi);
  }

  lemma AcceptedCount(hosts: seq<Job>, c: Config, subnet: string, ports: seq<int>, startIP: int, endIP: int,
                      port: int, i: nat)
    requires c.jobs == AllJobs(subnet, ports, FirstHost(startIP), LastHost(endIP))
    requires multiset(hosts) == multiset(Accepted(c, c.jobs))
    ensures var j := Job(subnet + "." + Decimal(i), port);
      multiset(hosts)[j] == if Requested(startIP, endIP, i) && c.accepts(j) then multiset(ports)[port] else 0
  {
    AllJobsCount(subnet, ports, FirstHost(startIP), LastHost(endIP), port, i);
    RangeIsRequested(startIP, endIP, i);
    hide Requested, FirstHost, LastHost, Accepted, AllJobs, Decimal;
  }

  lemma AcceptedHost(hosts: seq<Job>, c: Config, subnet: string, ports: seq<int>, startIP: int, endIP: int, j: Job)
    requires c.jobs == AllJobs(subnet, ports, FirstHost(startIP), LastHost(endIP))
    requires multiset(hosts) == multiset(Accepted(c, c.jobs)) && j in hosts
    ensures exists i: nat :: Requested(startIP, endIP, i) && j.host == subnet + "." + Decimal(i)
  {
    var lo, hi := FirstHost(startIP), LastHost(endIP);
    AcceptedInRange(hosts, c, subnet, ports, lo, hi, j);
    var i: nat :| lo <= i <= hi && j.host == Address(subnet, i);
    RangeIsRequested(startIP, endIP, i);
    hide Requested, FirstHost, LastHost, Accepted, AllJobs, Decimal;
  }

  lemma AcceptedReportsExactly(hosts: seq<Job>, c: Config, subnet: string, ports: seq<int>, startIP: int, endIP: int)
    requires c.jobs == AllJobs(subnet, ports, FirstHost(startIP), LastHost(endIP))
    requires multiset(hosts) == multiset(Accepted(c, c.jobs))
    ensures ReportsExactly(hosts, subnet, ports, startIP, endIP, c.accepts)
  {
    hide Requested, FirstHost, LastHost, Accepted, AllJobs, Decimal;
    forall port, i: nat
      ensures var j := Job(subnet + "." + Decimal(i), port);
        multiset(hosts)[j] == if Requested(startIP, endIP, i) && c.accepts(j) then multiset(ports)[port] else 0
    {
      AcceptedCount(hosts, c, subnet, ports, startIP, endIP, port, i);
    }
    forall j | j in hosts
      ensures exists i: nat :: Requested(startIP, endIP, i) && j.host == subnet + "." + Decimal(i)
    {
      AcceptedHost(hosts, c, subnet, ports, startIP, endIP, j);
    }
  }

  /** The request handler. `detected` is the subnet read off the network interfaces, empty if there is none. */
  method ProbeExecNetworkScan(subnet: string, detected: string, ports: seq<int>, startIP: int, endIP: int,
                              dial: Job -> bool, schedule: seq<Action>)
    returns (response: Response)
    ensures response.Failed? <==> (subnet == "" && detected == "") || ports == []
    ensures response.Found? ==>
      ReportsExactly(response.hosts, if subnet == "" then detected else subnet, ports, startIP, endIP, dial)
  {
    var used := if subnet == "" then detected else subnet;
    if used == "" || ports == [] {
      return Failed;
    }
    var work := AllJobs(used, ports, FirstHost(startIP), LastHost(endIP));
    var scan := new Scan(WORKERS, CAPACITY, work, dial);
    ghost var config := scan.config;
    scan.Run(schedule);
    response := Found(scan.found);
    AcceptedReportsExactly(response.hosts, config, used, ports, startIP, endIP);
  }
}
