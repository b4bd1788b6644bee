/**
 * `main` of ebsModify.py: for every non-blank line of the input file, find
 * the instance named by it, read its `Name` and `CostCenterID` tags, and for
 * each of its gp2 volumes take a snapshot and then request the conversion
 * to gp3.
 *
 * `Job` is the specification, written as folds over the input lines and over
 * each instance's volumes; `RunJob` is the loop-and-variables form and is
 * proved to produce exactly what `Job` says. An exception Python would let
 * escape from `main` is a `Fault`: the run stops there and the `[ENDING]`
 * message is never recorded.
 */
module Workflow {
  import opened Builtins
  import opened AwsUtils
  import opened Cloud
  import opened EbsModify

  /** The uncaught exceptions that end the run. */
  datatype Fault =
      /** `instanceList.pop()` on an empty list: no instance carries the name. */
    | InstanceNotFound(hostname: string)
      /** `tags['Name']` or `tags['CostCenterID']` on a missing key. */
    | MissingTag(key: string)
      /** `volume.attachments[0]` on a gp2 volume without attachments. */
    | NoAttachment(volumeId: string)
      /** `snapshot.id` with `snapshot` still `None` after `create_snapshot` raised. */
    | SnapshotMissing(volumeId: string)
      /** `response['VolumeModification']` with `response` `None` after `modify_volume` raised. */
    | ResponseMissing(volumeId: string)
      /** The modification message read `volumeId`, `mod_state`, ... before any assignment. */
    | ModificationUnbound(volumeId: string)

  /**
   * The variables of `main` that outlive one iteration: `ec2Counter`, the four
   * modification variables (one `Modification`, set together), and what has
   * been recorded and requested so far.
   */
  datatype JobState = JobState(
    counter: nat,
    lastModification: Option<Modification>,
    trace: seq<Event>,
    fault: Option<Fault>)

  /** What a whole run produces. */
  datatype Run = Run(trace: seq<Event>, fault: Option<Fault>)

  function StartMessage(accountId: string, now: string): string {
    "[STARTING] EBS Modification job from account: " + accountId + " at " + now
  }

  function EndMessage(now: string): string {
    "[ENDING] EBS Modification job at " + now
  }

  function ProcessingMessage(counter: nat, hostname: string): string {
    NatToString(counter) + "] Processing EBS volumes for EC2 --> " + hostname
  }

  function VolumeInfoMessage(volume: Volume, device: string): string {
    "Id: " + volume.id + "\nVolume Name: " + device + "\nVolume Type: " + volume.volumeType +
    "\nVolume Size: " + NatToString(volume.size) + "\nVolume Create Time: " + volume.createTime + "\n"
  }

  function ModificationMessage(m: Modification): string {
    "VolumeId: " + m.volumeId + "\nModificationState: " + m.state +
    "\nTargetSize: " + NatToString(m.targetSize) + "\nTargetVolumeType: " + m.targetType + "\n"
  }

  function OutOfScopeMessage(volume: Volume): string {
    volume.id + " is not an in-scope volume_type for converting --> volume_type=[" + volume.volumeType + "]"
  }

  /** The `volume_list` entry built for a gp2 volume. */
  function Descriptor(ec2Name: string, costCenter: string, volume: Volume, device: string): VolumeDescriptor {
    VolumeDescriptor(ec2Name, costCenter, device, volume.id, volume.volumeType, volume.size, volume.createTime)
  }

  /** The instance's tags as `tags_to_map` returns them. */
  function InstanceTags(instance: Instance): map<string, string> {
    if instance.tags.None? then map[] else TagMap(instance.tags.value)
  }

  /** The faults of the volume loop: each names the volume it happened on. */
  predicate VolumeFault(f: Fault) {
    f.NoAttachment? || f.SnapshotMissing? || f.ResponseMissing? || f.ModificationUnbound?
  }

  /**
   * What the work on one volume, on a run of volumes or on one instance
   * adds: the events it records, the modification variables afterwards,
   * and the fault that stopped it, if any.
   */
  datatype Effect = Effect(events: seq<Event>, lastModification: Option<Modification>, fault: Option<Fault>)

  /** One iteration of the volume loop, given the modification variables left by earlier volumes. */
  function VolumeStep(ec2Name: string, costCenter: string, today: string, volume: Volume,
                      last: Option<Modification>): Effect {
    if volume.volumeType != "gp2" then
      Effect(Record(OutOfScopeMessage(volume), INFO), last, None)
    else if |volume.devices| == 0 then
      Effect([], last, Some(NoAttachment(volume.id)))
    else
      var device := volume.devices[0];
      var snap := TakeSnap(Descriptor(ec2Name, costCenter, volume, device), today, volume.onSnapshot);
      var e := Record(VolumeInfoMessage(volume, device), INFO) + snap.events;
      if snap.snapshotId.None? then
        Effect(e, last, Some(SnapshotMissing(volume.id)))
      else if |snap.snapshotId.value| > 0 then
        var conv := Gp3Convert(volume.id, volume.onModify);
        if conv.response.None? then
          Effect(e + conv.events, last, Some(ResponseMissing(volume.id)))
        else
          Effect(e + conv.events + Record(ModificationMessage(conv.response.value), INFO), conv.response, None)
      else if last.None? then
        Effect(e, last, Some(ModificationUnbound(volume.id)))
      else
        Effect(e + Record(ModificationMessage(last.value), INFO), last, None)
  }

  /** The volume loop: the volumes in listing order, stopping at the first fault. */
  function Volumes(ec2Name: string, costCenter: string, today: string, volumes: seq<Volume>,
                   last: Option<Modification>): Effect
    decreases |volumes|
  {
    if volumes == [] then Effect([], last, None)
    else
      var first := VolumeStep(ec2Name, costCenter, today, volumes[0], last);
      if first.fault.Some? then first
      else
        var rest := Volumes(ec2Name, costCenter, today, volumes[1..], first.lastModification);
        Effect(first.events + rest.events, rest.lastModification, rest.fault)
  }

  /** The body of the line loop after the instance is found: the tag lookups, then the volume loop. */
  function InstanceStep(today: string, instance: Instance, last: Option<Modification>): Effect {
    var tags := InstanceTags(instance);
    if "Name" !in tags then
      Effect([], last, Some(MissingTag("Name")))
    else
      var e := Record("EC2 Name: " + tags["Name"], INFO);
      if "CostCenterID" !in tags then
        Effect(e, last, Some(MissingTag("CostCenterID")))
      else
        var volumes := Volumes(tags["Name"], tags["CostCenterID"], today, instance.volumes, last);
        Effect(e + Record("EC2 CostCenterID: " + tags["CostCenterID"], INFO) + volumes.events,
               volumes.lastModification, volumes.fault)
  }

  /**
   * The body of the line loop once the line holds a hostname and the counter
   * is bumped: the processing message, the instance lookup, then the work on
   * the instance.
   */
  function HostStep(account: Account, today: string, hostname: string, counter: nat,
                    last: Option<Modification>): Effect
  {
    var found := Resolve(hostname, FilterByName(account.instances, hostname));
    var e := Record(ProcessingMessage(counter, hostname), INFO) + found.events;
    if found.instance.None? then
      Effect(e, last, Some(InstanceNotFound(hostname)))
    else
      var i := InstanceStep(today, found.instance.value, last);
      Effect(e + i.events, i.lastModification, i.fault)
  }

  /** One iteration of the line loop: a blank line is skipped, any other counted and worked on. */
  function LineStep(account: Account, today: string, line: string, st: JobState): JobState {
    var hostname := Strip(line);
    if hostname == "" then st
    else
      var counter := st.counter + 1;
      var e := HostStep(account, today, hostname, counter, st.lastModification);
      JobState(counter, e.lastModification, st.trace + e.events, e.fault)
  }

  /** The line loop: the lines in file order, stopping at the first fault. */
  function Lines(account: Account, today: string, lines: seq<string>, st: JobState): JobState
    decreases |lines|
  {
    if lines == [] || st.fault.Some? then st
    else Lines(account, today, lines[1..], LineStep(account, today, lines[0], st))
  }

  function InitialState(accountId: string, startTime: string): JobState {
    JobState(0, None, Record(StartMessage(accountId, startTime), INFO), None)
  }

  /** The whole of `main` after authentication, for the given input lines. */
  function Job(account: Account, lines: seq<string>, today: string,
               accountId: string, startTime: string, endTime: string): Run
  {
    var st := Lines(account, today, lines, InitialState(accountId, startTime));
    if st.fault.Some? then Run(st.trace, st.fault)
    else Run(st.trace + Record(EndMessage(endTime), INFO), None)
  }

  /**
   * One iteration of the nested `for volume in volumes` loop of `main`: the
   * messages and requests it records, and the modification variables and
   * `volume_list` passed in and out. `volume_list` is empty when an
   * iteration starts, and empty again when it ends: the entry appended for a
   * gp2 volume is the one `pop(0)` takes back.
   */
  method ConvertVolume(ec2Name: string, costCenter: string, today: string, volume: Volume,
                       lastIn: Option<Modification>, volumeListIn: seq<VolumeDescriptor>)
    returns (events: seq<Event>, lastModification: Option<Modification>, fault: Option<Fault>,
             volumeList: seq<VolumeDescriptor>)
    requires volumeListIn == []
    ensures Effect(events, lastModification, fault) == VolumeStep(ec2Name, costCenter, today, volume, lastIn)
    ensures volumeList == []
  {
    lastModification, fault, volumeList := lastIn, None, volumeListIn;
    if volume.volumeType != "gp2" {
      events := Record(OutOfScopeMessage(volume), INFO);
      return;
    }
    if |volume.devices| == 0 {
      events := [];
      fault := Some(NoAttachment(volume.id));
      return;
    }
    var deviceName := volume.devices[0];
    volumeList := volumeList + [VolumeDescriptor(ec2Name, costCenter, deviceName, volume.id,
                                                 volume.volumeType, volume.size, volume.createTime)];
    events := Record(VolumeInfoMessage(volume, deviceName), INFO);
    var volmap := volumeList[0];
    volumeList := volumeList[1..];
    assert volmap == Descriptor(ec2Name, costCenter, volume, deviceName);
    var snap := TakeSnap(volmap, today, volume.onSnapshot);
    events := events + snap.events;
    if snap.snapshotId.None? {
      fault := Some(SnapshotMissing(volume.id));
      return;
    }
    // conversion only for a non-empty snapshot id
    if |snap.snapshotId.value| > 0 {
      var conv := Gp3Convert(volmap.volumeId, volume.onModify);
      events := events + conv.events;
      if conv.response.None? {
        fault := Some(ResponseMissing(volume.id));
        return;
      }
      lastModification := conv.response;
    }
    if lastModification.None? {
      fault := Some(ModificationUnbound(volume.id));
      return;
    }
    events := events + Record(ModificationMessage(lastModification.value), INFO);
  }

  /**
   * The nested `for volume in volumes` loop of `main`: what it records, and
   * the modification variables it shares with the enclosing loop, which
   * survive from one volume to the next.
   */
  method ConvertVolumes(ec2Name: string, costCenter: string, today: string, volumes: seq<Volume>,
                        lastIn: Option<Modification>, volumeListIn: seq<VolumeDescriptor>)
    returns (events: seq<Event>, lastModification: Option<Modification>, fault: Option<Fault>,
             volumeList: seq<VolumeDescriptor>)
    requires volumeListIn == []
    ensures Effect(events, lastModification, fault) == Volumes(ec2Name, costCenter, today, volumes, lastIn)
    ensures volumeList == []
  {
    events, lastModification, fault, volumeList := [], lastIn, None, volumeListIn;
    ghost var goal := Volumes(ec2Name, costCenter, today, volumes, lastIn);
    var j := 0;
    while j < |volumes|
      invariant j <= |volumes| && fault.None? && volumeList == []
      invariant var rest := Volumes(ec2Name, costCenter, today, volumes[j..], lastModification);
                goal == Effect(events + rest.events, rest.lastModification, rest.fault)
    {
      assert volumes[j..][1..] == volumes[j + 1..];
      ghost var before := lastModification;
      var stepEvents;
      stepEvents, lastModification, fault, volumeList :=
        ConvertVolume(ec2Name, costCenter, today, volumes[j], lastModification, volumeList);
      if fault.Some? {
        assert Volumes(ec2Name, costCenter, today, volumes[j..], before) == Effect(stepEvents, lastModification, fault);
        events := events + stepEvents;
        return;
      }
      ghost var rest := Volumes(ec2Name, costCenter, today, volumes[j + 1..], lastModification);
      AppendAssoc(events, stepEvents, rest.events);
      events := events + stepEvents;
      j := j + 1;
    }
    assert volumes[j..] == [];
    assert events + [] == events;
  }

  /** The tag lookups of the line loop, then the volume loop over the instance's volumes. */
  method ProcessInstance(today: string, ec2Instance: Instance, lastIn: Option<Modification>)
    returns (events: seq<Event>, lastModification: Option<Modification>, fault: Option<Fault>)
    ensures Effect(events, lastModification, fault) == InstanceStep(today, ec2Instance, lastIn)
  {
    events, lastModification, fault := [], lastIn, None;
    var tags := TagsToMap(ec2Instance.tags);
    var volumeList: seq<VolumeDescriptor> := [];
    if "Name" !in tags {
      fault := Some(MissingTag("Name"));
      return;
    }
    events := Record("EC2 Name: " + tags["Name"], INFO);
    if "CostCenterID" !in tags {
      fault := Some(MissingTag("CostCenterID"));
      return;
    }
    events := events + Record("EC2 CostCenterID: " + tags["CostCenterID"], INFO);
    var volumeEvents;
    volumeEvents, lastModification, fault, volumeList :=
      ConvertVolumes(tags["Name"], tags["CostCenterID"], today, ec2Instance.volumes, lastModification, volumeList);
    events := events + volumeEvents;
  }

  /** The line loop's work on one hostname, `ec2Counter` already bumped. */
  method ProcessHost(account: Account, today: string, hostname: string, ec2Counter: nat,
                     lastIn: Option<Modification>)
    returns (events: seq<Event>, lastModification: Option<Modification>, fault: Option<Fault>)
    ensures Effect(events, lastModification, fault) == HostStep(account, today, hostname, ec2Counter, lastIn)
  {
    events, lastModification, fault := Record(ProcessingMessage(ec2Counter, hostname), INFO), lastIn, None;
    var warnings, found := GetEc2ByName(account, hostname);
    events := events + warnings;
    if found.None? {
      fault := Some(InstanceNotFound(hostname));
      return;
    }
    var instanceEvents;
    instanceEvents, lastModification, fault := ProcessInstance(today, found.value, lastModification);
    events := events + instanceEvents;
  }

  /**
   * The body of the line loop of `main` for one line read from the file, with
   * the variables it shares with later iterations passed in and out.
   */
  method ProcessLine(account: Account, today: string, line: string,
                     counterIn: nat, lastIn: Option<Modification>, traceIn: seq<Event>)
    returns (ec2Counter: nat, lastModification: Option<Modification>, trace: seq<Event>, fault: Option<Fault>)
    ensures JobState(ec2Counter, lastModification, trace, fault) ==
              LineStep(account, today, line, JobState(counterIn, lastIn, traceIn, None))
  {
    ec2Counter, lastModification, trace, fault := counterIn, lastIn, traceIn, None;
    var cleanLine := Strip(line);
    if cleanLine == "" {
      return;
    }
    var hostname := cleanLine;
    ec2Counter := ec2Counter + 1;
    var events;
    events, lastModification, fault := ProcessHost(account, today, hostname, ec2Counter, lastModification);
    trace := trace + events;
  }

  /**
   * `main` from the opening of the input file on: the line loop, with
   * `ec2Counter` and the modification variables living across lines.
   */
  method RunJob(account: Account, lines: seq<string>, today: string,
                accountId: string, startTime: string, endTime: string)
    returns (trace: seq<Event>, fault: Option<Fault>)
    ensures Run(trace, fault) == Job(account, lines, today, accountId, startTime, endTime)
  {
    fault := None;
    trace := Record(StartMessage(accountId, startTime), INFO);
    ghost var goal := Lines(account, today, lines, InitialState(accountId, startTime));
    var ec2Counter: nat := 0;
    var lastModification: Option<Modification> := None;
    var i := 0;
    while i < |lines|
      invariant i <= |lines| && fault.None?
      invariant Lines(account, today, lines[i..], JobState(ec2Counter, lastModification, trace, None)) == goal
    {
      assert lines[i..][1..] == lines[i + 1..];
      ghost var before := JobState(ec2Counter, lastModification, trace, None);
      ec2Counter, lastModification, trace, fault :=
        ProcessLine(account, today, lines[i], ec2Counter, lastModification, trace);
      if fault.Some? {
        assert Lines(account, today, lines[i + 1..], LineStep(account, today, lines[i], before)) ==
               JobState(ec2Counter, lastModification, trace, fault);
        return;
      }
      i := i + 1;
    }
    trace := trace + Record(EndMessage(endTime), INFO);
  }
}
