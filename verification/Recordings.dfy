/** Who owns the device's captures: each recording owns one, and its drop releases it. */
module Recordings {
  import opened Cpu
  import opened Scopes
  import opened Sequences

  /** Different captures, and the device holds these and no other. */
  ghost predicate OwnedBy(live: seq<Recording>, dev: Device)
    reads dev
  {
    && (forall i | 0 <= i < |live| :: live[i].dev == dev && live[i].raw.id in dev.captures)
    && (forall i, j | 0 <= i < j < |live| :: live[i].raw.id != live[j].raw.id)
    && forall id | id in dev.captures :: exists i | 0 <= i < |live| :: live[i].raw.id == id
  }

  /** `Drop for Recording`: releases its raw capture. */
  method DropRecording(recording: Recording)
    requires recording.dev.Valid() && recording.raw.id in recording.dev.captures
    modifies recording.dev`captures
    ensures recording.dev.Valid() && recording.dev.captures == old(recording.dev.captures) - {recording.raw.id}
  {
    recording.dev.ReleaseCapture(recording.raw);
  }

  /** A program captures a closure, ended in any way, or drops a recording it has. */
  datatype Op = CaptureOne(f: seq<(nat, seq<Arg>)>, ending: Ending) | DropOne(at: nat)

  /** Main result: over any captures and drops, however the captured closures end, the device
      holds exactly the captures of the live recordings, one each. `dropped` lists what drops
      released: nothing twice, and nothing a live recording owns. */
  method Use(scope: Scope, ops: seq<Op>) returns (live: seq<Recording>, ghost dropped: seq<nat>)
    requires scope.Valid() && scope.Lockstep() && scope.recording.None? && scope.dev.captures == {}
    requires forall op | op in ops && op.CaptureOne? ::
               forall j | 0 <= j < |op.f| :: op.f[j].0 < |scope.nodes| && InScope(scope.bufs, op.f[j].1)
    modifies scope`recording, scope.dev
    ensures scope.Valid() && scope.Lockstep() && scope.recording.None? && scope.dev.mem == old(scope.dev.mem)
    ensures OwnedBy(live, scope.dev)
    ensures forall i, j | 0 <= i < j < |dropped| :: dropped[i] != dropped[j]
    ensures forall id | id in dropped :: id !in scope.dev.captures
  {
    live, dropped := [], [];
    for k := 0 to |ops|
      invariant scope.Valid() && scope.Lockstep() && scope.recording.None? && scope.dev.mem == old(scope.dev.mem)
      invariant OwnedBy(live, scope.dev) && Released(dropped, scope.dev)
    {
      assert ops[k] in ops;
      match ops[k] {
        case CaptureOne(f, ending) =>
          live := CaptureMore(scope, f, ending, live, dropped);
        case DropOne(at) =>
          if at < |live| {
            var id := live[at].raw.id;
            live := DropAt(scope, live, at);
            dropped := dropped + [id];
          }
      }
    }
  }

  /** Released for good: no capture has such an id any more, nor will. */
  ghost predicate Released(dropped: seq<nat>, dev: Device)
    reads dev
  {
    && (forall i, j | 0 <= i < j < |dropped| :: dropped[i] != dropped[j])
    && forall id | id in dropped :: id !in dev.captures && id < dev.nextCapture
  }

  method CaptureMore(
    scope: Scope, f: seq<(nat, seq<Arg>)>, ending: Ending, live: seq<Recording>, ghost dropped: seq<nat>)
    returns (now: seq<Recording>)
    requires scope.Valid() && scope.Lockstep() && scope.recording.None?
    requires OwnedBy(live, scope.dev) && Released(dropped, scope.dev)
    requires forall j | 0 <= j < |f| :: f[j].0 < |scope.nodes| && InScope(scope.bufs, f[j].1)
    modifies scope`recording, scope.dev
    ensures scope.Valid() && scope.Lockstep() && scope.recording.None? && scope.dev.mem == old(scope.dev.mem)
    ensures OwnedBy(now, scope.dev) && Released(dropped, scope.dev)
  {
    hide Scope.Valid, Scope.Lockstep, Scope.Kept;
    var r := scope.Capture(f, ending);
    now := live;
    if r.Kept? {
      now := live + [r.recording];
      assert now[|live|] == r.recording;
      forall id | id in scope.dev.captures
        ensures exists i | 0 <= i < |now| :: now[i].raw.id == id
      {
        if id != r.recording.raw.id {
          var i :| 0 <= i < |live| && live[i].raw.id == id;
          assert now[i].raw.id == id;
        }
      }
    }
  }

  method DropAt(scope: Scope, live: seq<Recording>, at: nat) returns (now: seq<Recording>)
    requires scope.Valid() && scope.Lockstep() && scope.recording.None? && OwnedBy(live, scope.dev) && at < |live|
    modifies scope.dev`captures
    ensures scope.Valid() && scope.Lockstep() && OwnedBy(now, scope.dev)
    ensures scope.dev.captures == old(scope.dev.captures) - {live[at].raw.id}
  {
    DropRecording(live[at]);
    now := Without(live, at);
    hide Scope.Valid, Scope.Lockstep, Without;
    forall i, j | 0 <= i < j < |now|
      ensures now[i].raw.id != now[j].raw.id
    {
      assert now[i] == live[Skip(at, i)] && now[j] == live[Skip(at, j)] && Skip(at, i) < Skip(at, j);
    }
    forall i | 0 <= i < |now|
      ensures now[i].dev == scope.dev && now[i].raw.id in scope.dev.captures
    {
      assert now[i] == live[Skip(at, i)] && Skip(at, i) < |live|;
    }
    forall id | id in scope.dev.captures
      ensures exists i | 0 <= i < |now| :: now[i].raw.id == id
    {
      var i :| 0 <= i < |live| && live[i].raw.id == id;
      assert live[i] in now;
    }
  }
}
