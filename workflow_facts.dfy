/**
 * What the conversion workflow of ebsModify.py guarantees, stated about the
 * specification `Job` (and so, through `RunJob`'s postcondition, about the
 * loops of `main`).
 */
module WorkflowFacts {
  import opened Builtins
  import opened AwsUtils
  import opened Cloud
  import opened EbsModify
  import opened EbsModifyFacts
  import opened Workflow

  /**
   * `tags[key]` on the instance's tag dictionary succeeds exactly when one of
   * its tags has that key, and gives the value of the last such tag.
   */
  lemma InstanceTagsLookup(instance: Instance, key: string)
    ensures key in InstanceTags(instance) <==>
              instance.tags.Some? && exists i :: 0 <= i < |instance.tags.value| && instance.tags.value[i].key == key
    ensures key in InstanceTags(instance) ==>
              var tags := instance.tags.value;
              exists i :: 0 <= i < |tags| && tags[i] == Tag(key, InstanceTags(instance)[key]) &&
                          forall j :: i < j < |tags| ==> tags[j].key != key
  {
    if instance.tags.Some? {
      var tags := instance.tags.value;
      TagMapKeys(tags);
      if key in InstanceTags(instance) {
        var i := LastWithKey(tags, key);
        TagMapLastWins(tags, i);
      }
    }
  }

  /** The position of the last tag carrying the key. */
  lemma {:induction false} LastWithKey(tags: seq<Tag>, key: string) returns (i: nat)
    requires key in TagKeys(tags)
    ensures i < |tags| && tags[i].key == key
    ensures forall j :: i < j < |tags| ==> tags[j].key != key
    decreases |tags|
  {
    if tags[|tags| - 1].key == key {
      i := |tags| - 1;
    } else {
      var init := tags[..|tags| - 1];
      var k :| 0 <= k < |tags| && tags[k].key == key;
      assert init[k] == tags[k];
      i := LastWithKey(init, key);
      assert tags[i] == init[i];
      forall j | i < j < |tags| ensures tags[j].key != key {
        if j < |tags| - 1 {
          assert tags[j] == init[j];
        }
      }
    }
  }

  predicate IsRequest(e: Event) {
    e.SnapshotRequested? || e.ConversionRequested?
  }

  /** The requests sent to the provider, in the order they are sent. */
  function Requests(events: seq<Event>): (r: seq<Event>)
    ensures forall k :: 0 <= k < |r| ==> IsRequest(r[k])
    decreases |events|
  {
    if events == [] then []
    else (if IsRequest(events[0]) then [events[0]] else []) + Requests(events[1..])
  }

  /** No request is dropped: the requests are exactly the trace's events that are requests. */
  lemma {:induction false} RequestsMembers(events: seq<Event>)
    ensures forall e :: e in Requests(events) <==> e in events && IsRequest(e)
    decreases |events|
  {
    if events != [] {
      RequestsMembers(events[1..]);
      assert forall e :: e in events <==> e == events[0] || e in events[1..];
    }
  }

  lemma {:induction false} RequestsAppend(a: seq<Event>, b: seq<Event>)
    ensures Requests(a + b) == Requests(a) + Requests(b)
    decreases |a|
  {
    if a == [] {
      assert a + b == b;
    } else {
      assert (a + b)[1..] == a[1..] + b;
      RequestsAppend(a[1..], b);
    }
  }

  /** Printing and logging send nothing to the provider. */
  lemma RequestsOfRecord(message: string, level: string)
    ensures Requests(Record(message, level)) == []
  {
    var r := Record(message, level);
    assert r[1..] == (if LevelOf(level).Some? then [Logged(LevelOf(level).value, message)] else []);
    if LevelOf(level).Some? {
      assert r[1..][1..] == [];
      assert Requests(r[1..]) == [];
    }
    assert Requests(r) == Requests(r[1..]);
  }

  lemma RequestsAfterRecord(a: seq<Event>, message: string, level: string)
    ensures Requests(a + Record(message, level)) == Requests(a)
  {
    RequestsAppend(a, Record(message, level));
    RequestsOfRecord(message, level);
  }

  lemma TakeSnapRequests(volmap: VolumeDescriptor, today: string, outcome: SnapshotOutcome)
    ensures Requests(TakeSnap(volmap, today, outcome).events) == [SnapshotRequested(SnapshotRequestFor(volmap, today))]
  {
    var events := TakeSnap(volmap, today, outcome).events;
    var request := [events[0]];
    assert Requests(request) == request;
    if outcome.Completed? {
      assert events == request;
    } else {
      assert events == request + Record(SnapshotErrorMessage(volmap.volumeId, outcome.error), CRITICAL);
      RequestsAfterRecord(request, SnapshotErrorMessage(volmap.volumeId, outcome.error), CRITICAL);
    }
  }

  lemma Gp3ConvertRequests(volumeId: string, outcome: ModifyOutcome)
    ensures Requests(Gp3Convert(volumeId, outcome).events) == [ConversionRequested(volumeId, "gp3")]
  {
    var events := Gp3Convert(volumeId, outcome).events;
    var request := [events[0]];
    assert Requests(request) == request;
    if outcome.Modified? {
      assert events == request;
    } else {
      assert events == request + Record(ConversionErrorMessage(volumeId, outcome.error), CRITICAL);
      RequestsAfterRecord(request, ConversionErrorMessage(volumeId, outcome.error), CRITICAL);
    }
  }

  /**
   * The requests one volume causes, one volume at a time: none for a
   * volume that is not gp2; for a gp2 volume its snapshot request, followed
   * by a gp3 conversion request exactly when the snapshot returned a
   * non-empty id (also when waiting for the snapshot failed).
   */
  function VolumeRequests(ec2Name: string, costCenter: string, today: string, volume: Volume): seq<Event> {
    if volume.volumeType != "gp2" || |volume.devices| == 0 then []
    else
      [SnapshotRequested(SnapshotRequestFor(Descriptor(ec2Name, costCenter, volume, volume.devices[0]), today))] +
      (if !volume.onSnapshot.CreateFailed? && |volume.onSnapshot.snapshotId| > 0
       then [ConversionRequested(volume.id, "gp3")] else [])
  }

  /** The requests of a list of volumes, one volume after the other. */
  function AllVolumeRequests(ec2Name: string, costCenter: string, today: string, volumes: seq<Volume>): seq<Event>
    decreases |volumes|
  {
    if volumes == [] then []
    else VolumeRequests(ec2Name, costCenter, today, volumes[0]) + AllVolumeRequests(ec2Name, costCenter, today, volumes[1..])
  }

  lemma AllVolumeRequestsPrefix(ec2Name: string, costCenter: string, today: string, volumes: seq<Volume>, k: nat)
    requires k < |volumes|
    ensures AllVolumeRequests(ec2Name, costCenter, today, volumes[..k + 1]) ==
              VolumeRequests(ec2Name, costCenter, today, volumes[0]) +
              AllVolumeRequests(ec2Name, costCenter, today, volumes[1..][..k])
  {
    assert volumes[..k + 1][0] == volumes[0];
    assert volumes[..k + 1][1..] == volumes[1..][..k];
  }

  /** One iteration of the volume loop sends exactly the requests `VolumeRequests` lists, whatever faults. */
  lemma VolumeStepRequests(ec2Name: string, costCenter: string, today: string, volume: Volume,
                           last: Option<Modification>)
    ensures Requests(VolumeStep(ec2Name, costCenter, today, volume, last).events) ==
              VolumeRequests(ec2Name, costCenter, today, volume)
  {
    if volume.volumeType != "gp2" {
      RequestsOfRecord(OutOfScopeMessage(volume), INFO);
    } else if |volume.devices| > 0 {
      var device := volume.devices[0];
      var volmap := Descriptor(ec2Name, costCenter, volume, device);
      var snap := TakeSnap(volmap, today, volume.onSnapshot);
      var info := Record(VolumeInfoMessage(volume, device), INFO);
      var e := info + snap.events;
      RequestsAppend(info, snap.events);
      RequestsOfRecord(VolumeInfoMessage(volume, device), INFO);
      TakeSnapRequests(volmap, today, volume.onSnapshot);
      var snapshot := [SnapshotRequested(SnapshotRequestFor(volmap, today))];
      assert Requests(e) == snapshot;
      if snap.snapshotId.None? {
        assert VolumeRequests(ec2Name, costCenter, today, volume) == snapshot;
      } else if |snap.snapshotId.value| > 0 {
        var conv := Gp3Convert(volume.id, volume.onModify);
        RequestsAppend(e, conv.events);
        Gp3ConvertRequests(volume.id, volume.onModify);
        if conv.response.Some? {
          RequestsAfterRecord(e + conv.events, ModificationMessage(conv.response.value), INFO);
        }
      } else if last.Some? {
        RequestsAfterRecord(e, ModificationMessage(last.value), INFO);
      }
    }
  }

  /**
   * The volume loop sends the requests of the volumes it gets through, in
   * listing order: of all of them when no fault stops it, otherwise of those
   * up to and including the one that faulted.
   */
  lemma {:induction false} VolumesRequests(ec2Name: string, costCenter: string, today: string,
                                           volumes: seq<Volume>, last: Option<Modification>) returns (k: nat)
    ensures k <= |volumes|
    ensures Requests(Volumes(ec2Name, costCenter, today, volumes, last).events) ==
              AllVolumeRequests(ec2Name, costCenter, today, volumes[..k])
    ensures Volumes(ec2Name, costCenter, today, volumes, last).fault.None? ==> k == |volumes|
    decreases |volumes|
  {
    if volumes == [] {
      k := 0;
    } else {
      var first := VolumeStep(ec2Name, costCenter, today, volumes[0], last);
      VolumeStepRequests(ec2Name, costCenter, today, volumes[0], last);
      if first.fault.Some? {
        k := 1;
        AllVolumeRequestsPrefix(ec2Name, costCenter, today, volumes, 0);
        assert volumes[1..][..0] == [];
        assert VolumeRequests(ec2Name, costCenter, today, volumes[0]) + [] == VolumeRequests(ec2Name, costCenter, today, volumes[0]);
      } else {
        var rest := Volumes(ec2Name, costCenter, today, volumes[1..], first.lastModification);
        var k' := VolumesRequests(ec2Name, costCenter, today, volumes[1..], first.lastModification);
        k := k' + 1;
        RequestsAppend(first.events, rest.events);
        AllVolumeRequestsPrefix(ec2Name, costCenter, today, volumes, k');
      }
    }
  }

  /** Without a fault, the volumes' requests come in listing order, each volume's snapshot before its conversion. */
  lemma VolumesRequestOrder(ec2Name: string, costCenter: string, today: string, volumes: seq<Volume>,
                            last: Option<Modification>)
    requires Volumes(ec2Name, costCenter, today, volumes, last).fault.None?
    ensures Requests(Volumes(ec2Name, costCenter, today, volumes, last).events) ==
              AllVolumeRequests(ec2Name, costCenter, today, volumes)
  {
    var k := VolumesRequests(ec2Name, costCenter, today, volumes, last);
    assert volumes[..k] == volumes;
  }

  /** The tags a snapshot of the volume must carry, as a dictionary. */
  function SnapshotTags(volumeId: string, costCenter: string, today: string): map<string, string> {
    map["Name" := "gp3-convert-" + volumeId, "CostCenterID" := costCenter, "CreatedDate" := today, "TTL" := "20"]
  }

  /** A gp2 volume of one of the account's instances. */
  predicate Gp2VolumeOf(account: Account, instance: Instance, volume: Volume) {
    instance in account.instances && volume in instance.volumes && volume.volumeType == "gp2"
  }

  /**
   * A request the workflow is allowed to send: it names a gp2 volume of an
   * instance of the account; a conversion targets gp3; a snapshot request
   * carries exactly the four tags, with that instance's cost centre.
   */
  ghost predicate Sanctioned(account: Account, today: string, e: Event) {
    match e
    case SnapshotRequested(request) =>
      exists instance, volume :: Gp2VolumeOf(account, instance, volume) && volume.id == request.volumeId &&
        "CostCenterID" in InstanceTags(instance) &&
        TagMap(request.tags) == SnapshotTags(volume.id, InstanceTags(instance)["CostCenterID"], today)
    case ConversionRequested(volumeId, volumeType) =>
      volumeType == "gp3" &&
      exists instance, volume :: Gp2VolumeOf(account, instance, volume) && volume.id == volumeId
    case _ => false
  }

  /** Among the requests, each conversion comes right after the snapshot request for the same volume. */
  predicate SnapshotFirst(r: seq<Event>) {
    forall k :: 0 <= k < |r| && r[k].ConversionRequested? ==>
      0 < k && r[k - 1].SnapshotRequested? && r[k - 1].request.volumeId == r[k].volumeId
  }

  ghost predicate Safe(account: Account, today: string, r: seq<Event>) {
    SnapshotFirst(r) && forall k :: 0 <= k < |r| ==> Sanctioned(account, today, r[k])
  }

  lemma SafeAppend(account: Account, today: string, a: seq<Event>, b: seq<Event>)
    requires Safe(account, today, a) && Safe(account, today, b)
    ensures Safe(account, today, a + b)
  {
    var r := a + b;
    forall k | 0 <= k < |r| ensures Sanctioned(account, today, r[k]) {
      if k >= |a| {
        assert r[k] == b[k - |a|];
      }
    }
    forall k | 0 <= k < |r| && r[k].ConversionRequested?
      ensures 0 < k && r[k - 1].SnapshotRequested? && r[k - 1].request.volumeId == r[k].volumeId
    {
      if k >= |a| {
        assert r[k] == b[k - |a|];
        assert r[k - 1] == b[k - |a| - 1];
      }
    }
  }

  /** The requests of one volume of an instance of the account are allowed and in order. */
  lemma VolumeRequestsSafe(account: Account, today: string, instance: Instance, ec2Name: string, volume: Volume)
    requires instance in account.instances && volume in instance.volumes
    requires "CostCenterID" in InstanceTags(instance)
    ensures Safe(account, today, VolumeRequests(ec2Name, InstanceTags(instance)["CostCenterID"], today, volume))
  {
    var costCenter := InstanceTags(instance)["CostCenterID"];
    if volume.volumeType == "gp2" && |volume.devices| > 0 {
      var volmap := Descriptor(ec2Name, costCenter, volume, volume.devices[0]);
      SnapshotTagsAsMap(volmap, today);
      assert Gp2VolumeOf(account, instance, volume);
      var r := VolumeRequests(ec2Name, costCenter, today, volume);
      assert Sanctioned(account, today, r[0]);
      assert Sanctioned(account, today, ConversionRequested(volume.id, "gp3"));
    }
  }

  lemma {:induction false} AllVolumeRequestsSafe(account: Account, today: string, instance: Instance,
                                                 ec2Name: string, volumes: seq<Volume>)
    requires instance in account.instances && forall v :: v in volumes ==> v in instance.volumes
    requires "CostCenterID" in InstanceTags(instance)
    ensures Safe(account, today, AllVolumeRequests(ec2Name, InstanceTags(instance)["CostCenterID"], today, volumes))
    decreases |volumes|
  {
    if volumes != [] {
      var costCenter := InstanceTags(instance)["CostCenterID"];
      assert volumes[0] in volumes;
      VolumeRequestsSafe(account, today, instance, ec2Name, volumes[0]);
      assert forall v :: v in volumes[1..] ==> v in volumes;
      AllVolumeRequestsSafe(account, today, instance, ec2Name, volumes[1..]);
      SafeAppend(account, today, VolumeRequests(ec2Name, costCenter, today, volumes[0]),
                 AllVolumeRequests(ec2Name, costCenter, today, volumes[1..]));
    }
  }

  /**
   * The requests of one instance's iteration: none when a tag is missing,
   * otherwise those of the volumes the volume loop gets through, in listing
   * order, all of them when no fault stops it.
   */
  lemma InstanceStepRequests(today: string, instance: Instance, last: Option<Modification>) returns (k: nat)
    ensures var tags := InstanceTags(instance);
            var r := InstanceStep(today, instance, last);
            && k <= |instance.volumes|
            && ("Name" !in tags || "CostCenterID" !in tags ==> Requests(r.events) == [] && r.fault.Some?)
            && ("Name" in tags && "CostCenterID" in tags ==>
                  Requests(r.events) == AllVolumeRequests(tags["Name"], tags["CostCenterID"], today, instance.volumes[..k]) &&
                  (r.fault.None? ==> k == |instance.volumes|))
  {
    k := 0;
    var tags := InstanceTags(instance);
    if "Name" in tags {
      var name := Record("EC2 Name: " + tags["Name"], INFO);
      RequestsOfRecord("EC2 Name: " + tags["Name"], INFO);
      if "CostCenterID" in tags {
        var e := name + Record("EC2 CostCenterID: " + tags["CostCenterID"], INFO);
        RequestsAfterRecord(name, "EC2 CostCenterID: " + tags["CostCenterID"], INFO);
        var v := Volumes(tags["Name"], tags["CostCenterID"], today, instance.volumes, last);
        RequestsAppend(e, v.events);
        k := VolumesRequests(tags["Name"], tags["CostCenterID"], today, instance.volumes, last);
      }
    }
  }

  /** What an instance's iteration of the loop asks for is allowed and in order. */
  lemma InstanceStepSafe(account: Account, today: string, instance: Instance, last: Option<Modification>)
    requires instance in account.instances
    ensures Safe(account, today, Requests(InstanceStep(today, instance, last).events))
  {
    var tags := InstanceTags(instance);
    var k := InstanceStepRequests(today, instance, last);
    if "Name" in tags && "CostCenterID" in tags {
      var volumes := instance.volumes;
      assert forall x :: x in volumes[..k] ==> x in volumes;
      AllVolumeRequestsSafe(account, today, instance, tags["Name"], volumes[..k]);
    }
  }

  /** The work on a hostname asks for nothing itself: only the instance it finds does. */
  lemma HostStepRequests(account: Account, today: string, hostname: string, counter: nat, last: Option<Modification>)
    ensures var found := Resolve(hostname, FilterByName(account.instances, hostname));
            var r := HostStep(account, today, hostname, counter, last);
            && (found.instance.None? ==> Requests(r.events) == [])
            && (found.instance.Some? ==> Requests(r.events) == Requests(InstanceStep(today, found.instance.value, last).events))
  {
    var matches := FilterByName(account.instances, hostname);
    var found := Resolve(hostname, matches);
    var p := Record(ProcessingMessage(counter, hostname), INFO);
    assert Requests(p + found.events) == [] by {
      RequestsOfRecord(ProcessingMessage(counter, hostname), INFO);
      if |matches| > 1 {
        RequestsAfterRecord(p, MultipleMatchWarning(hostname), WARNING);
      } else {
        assert p + found.events == p;
      }
    }
    if found.instance.Some? {
      var e := InstanceStep(today, found.instance.value, last);
      RequestsAppend(p + found.events, e.events);
    }
  }

  lemma HostStepSafe(account: Account, today: string, hostname: string, counter: nat, last: Option<Modification>)
    ensures Safe(account, today, Requests(HostStep(account, today, hostname, counter, last).events))
  {
    var matches := FilterByName(account.instances, hostname);
    var found := Resolve(hostname, matches);
    HostStepRequests(account, today, hostname, counter, last);
    if found.instance.Some? {
      assert matches[|matches| - 1] in matches;
      InstanceStepSafe(account, today, found.instance.value, last);
    }
  }

  lemma LineStepSafe(account: Account, today: string, line: string, st: JobState)
    requires st.fault.None?
    requires Safe(account, today, Requests(st.trace))
    ensures Safe(account, today, Requests(LineStep(account, today, line, st).trace))
  {
    var hostname := Strip(line);
    if hostname != "" {
      var e := HostStep(account, today, hostname, st.counter + 1, st.lastModification);
      HostStepSafe(account, today, hostname, st.counter + 1, st.lastModification);
      RequestsAppend(st.trace, e.events);
      SafeAppend(account, today, Requests(st.trace), Requests(e.events));
    }
  }

  lemma {:induction false} LinesSafe(account: Account, today: string, lines: seq<string>, st: JobState)
    requires Safe(account, today, Requests(st.trace))
    ensures Safe(account, today, Requests(Lines(account, today, lines, st).trace))
    decreases |lines|
  {
    if lines != [] && st.fault.None? {
      LineStepSafe(account, today, lines[0], st);
      LinesSafe(account, today, lines[1..], LineStep(account, today, lines[0], st));
    }
  }

  /**
   * Over a whole run, faults included: every request names a gp2 volume of an
   * instance of the account; every snapshot request carries exactly the tags
   * Name = "gp3-convert-" + volume id, CostCenterID = the instance's tag,
   * CreatedDate = today and TTL = "20"; every conversion targets gp3 and comes
   * right after the snapshot request for the same volume.
   */
  lemma JobRequestsSafe(account: Account, lines: seq<string>, today: string,
                        accountId: string, startTime: string, endTime: string)
    ensures Safe(account, today, Requests(Job(account, lines, today, accountId, startTime, endTime).trace))
  {
    var init := InitialState(accountId, startTime);
    RequestsOfRecord(StartMessage(accountId, startTime), INFO);
    LinesSafe(account, today, lines, init);
    var st := Lines(account, today, lines, init);
    RequestsAfterRecord(st.trace, EndMessage(endTime), INFO);
  }

  /** The hostnames the job works through: the non-blank lines, stripped, in file order. */
  function Hostnames(lines: seq<string>): seq<string>
    decreases |lines|
  {
    if lines == [] then []
    else (if Strip(lines[0]) == "" then [] else [Strip(lines[0])]) + Hostnames(lines[1..])
  }

  /**
   * One volume's iteration: a fault it raises names that volume, and the
   * modification variables change only to the response of this volume's
   * own conversion.
   */
  lemma VolumeStepEffect(ec2Name: string, costCenter: string, today: string, volume: Volume,
                         last: Option<Modification>)
    ensures var r := VolumeStep(ec2Name, costCenter, today, volume, last);
            && (r.fault.Some? ==> VolumeFault(r.fault.value) && r.fault.value.volumeId == volume.id)
            && (r.lastModification == last ||
                (r.fault.None? && volume.onModify.Modified? && r.lastModification == Some(volume.onModify.modification)))
  {
    if volume.volumeType == "gp2" {
      Gp2VolumeOutcome(ec2Name, costCenter, today, volume, last);
    } else {
      OutOfScopeVolumeOnlyLogged(ec2Name, costCenter, today, volume, last);
    }
  }

  /**
   * The volume loop: a fault names one of the volumes; the modification
   * variables afterwards are those it was given or the response of one of
   * the volumes' conversions, and once bound they stay bound.
   */
  lemma {:induction false} VolumesEffect(ec2Name: string, costCenter: string, today: string,
                                         volumes: seq<Volume>, last: Option<Modification>)
    ensures var r := Volumes(ec2Name, costCenter, today, volumes, last);
            && (r.fault.Some? ==>
                  VolumeFault(r.fault.value) && exists k :: 0 <= k < |volumes| && volumes[k].id == r.fault.value.volumeId)
            && (r.lastModification == last ||
                exists k :: 0 <= k < |volumes| && volumes[k].onModify.Modified? &&
                            r.lastModification == Some(volumes[k].onModify.modification))
            && (last.Some? ==> r.lastModification.Some?)
    decreases |volumes|
  {
    if volumes != [] {
      var first := VolumeStep(ec2Name, costCenter, today, volumes[0], last);
      VolumeStepEffect(ec2Name, costCenter, today, volumes[0], last);
      if first.fault.None? {
        var rest := Volumes(ec2Name, costCenter, today, volumes[1..], first.lastModification);
        VolumesEffect(ec2Name, costCenter, today, volumes[1..], first.lastModification);
        if rest.fault.Some? {
          var k :| 0 <= k < |volumes[1..]| && volumes[1..][k].id == rest.fault.value.volumeId;
          assert volumes[k + 1].id == rest.fault.value.volumeId;
        }
        if rest.lastModification != first.lastModification {
          var k :| 0 <= k < |volumes[1..]| && volumes[1..][k].onModify.Modified? &&
                   rest.lastModification == Some(volumes[1..][k].onModify.modification);
          assert volumes[k + 1] == volumes[1..][k];
        }
      }
    }
  }

  /**
   * The work on one instance faults with `MissingTag` exactly when its
   * `Name` or `CostCenterID` tag is missing, never with `InstanceNotFound`,
   * and leaves bound modification variables bound.
   */
  lemma InstanceStepEffect(today: string, instance: Instance, last: Option<Modification>)
    ensures var r := InstanceStep(today, instance, last);
            var tags := InstanceTags(instance);
            && ((r.fault.Some? && r.fault.value.MissingTag?) <==> "Name" !in tags || "CostCenterID" !in tags)
            && (r.fault.Some? ==> !r.fault.value.InstanceNotFound?)
            && (last.Some? ==> r.lastModification.Some?)
  {
    var tags := InstanceTags(instance);
    if "Name" in tags && "CostCenterID" in tags {
      VolumesEffect(tags["Name"], tags["CostCenterID"], today, instance.volumes, last);
    }
  }

  /**
   * The work on a hostname faults with `InstanceNotFound` exactly when the
   * filter finds no instance, and then names that hostname.
   */
  lemma HostStepEffect(account: Account, today: string, hostname: string, counter: nat, last: Option<Modification>)
    ensures var r := HostStep(account, today, hostname, counter, last);
            && ((r.fault.Some? && r.fault.value.InstanceNotFound?) <==> FilterByName(account.instances, hostname) == [])
            && (r.fault.Some? && r.fault.value.InstanceNotFound? ==> r.fault.value.hostname == hostname)
            && (last.Some? ==> r.lastModification.Some?)
  {
    var found := Resolve(hostname, FilterByName(account.instances, hostname));
    if found.instance.Some? {
      InstanceStepEffect(today, found.instance.value, last);
    }
  }

  /** One line adds one to the counter exactly when it is not blank, and only appends to the trace. */
  lemma LineStepEffect(account: Account, today: string, line: string, st: JobState)
    ensures var r := LineStep(account, today, line, st);
            && r.counter == st.counter + (if AllSpace(line) then 0 else 1)
            && |st.trace| <= |r.trace| && r.trace[..|st.trace|] == st.trace
            && (st.lastModification.Some? ==> r.lastModification.Some?)
  {
    if !AllSpace(line) {
      var e := HostStep(account, today, Strip(line), st.counter + 1, st.lastModification);
      HostStepEffect(account, today, Strip(line), st.counter + 1, st.lastModification);
      assert (st.trace + e.events)[..|st.trace|] == st.trace;
    }
  }

  /**
   * The line loop changes nothing once a fault is recorded; otherwise the
   * counter only grows, the trace is only appended to, and bound
   * modification variables stay bound from one line to the next.
   */
  lemma {:induction false} LinesEffect(account: Account, today: string, lines: seq<string>, st: JobState)
    ensures var r := Lines(account, today, lines, st);
            && (st.fault.Some? ==> r == st)
            && st.counter <= r.counter
            && |st.trace| <= |r.trace| && r.trace[..|st.trace|] == st.trace
            && (st.lastModification.Some? ==> r.lastModification.Some?)
    decreases |lines|
  {
    if lines != [] && st.fault.None? {
      var next := LineStep(account, today, lines[0], st);
      var r := Lines(account, today, lines[1..], next);
      LineStepEffect(account, today, lines[0], st);
      LinesEffect(account, today, lines[1..], next);
      assert r.trace[..|st.trace|] == r.trace[..|next.trace|][..|st.trace|];
    }
  }

  /** Every run opens with the `[STARTING]` message, printed and logged at INFO. */
  lemma JobOpens(account: Account, lines: seq<string>, today: string,
                 accountId: string, startTime: string, endTime: string)
    ensures var r := Job(account, lines, today, accountId, startTime, endTime);
            var start := StartMessage(accountId, startTime);
            |r.trace| >= 2 && r.trace[..2] == [Printed(start), Logged(Info, start)]
  {
    var init := InitialState(accountId, startTime);
    var st := Lines(account, today, lines, init);
    LinesEffect(account, today, lines, init);
    assert |init.trace| == 2;
    if st.fault.None? {
      var end := Record(EndMessage(endTime), INFO);
      assert (st.trace + end)[..2] == st.trace[..2];
    }
  }

  /** A line that is blank once stripped changes nothing. */
  lemma BlankLineSkipped(account: Account, today: string, line: string, rest: seq<string>, st: JobState)
    requires AllSpace(line) && st.fault.None?
    ensures LineStep(account, today, line, st) == st
    ensures Lines(account, today, [line] + rest, st) == Lines(account, today, rest, st)
  {
    assert ([line] + rest)[1..] == rest;
  }

  /** The work on a hostname opens with the processing message carrying the count. */
  lemma HostStepOpens(account: Account, today: string, hostname: string, counter: nat, last: Option<Modification>)
    ensures var r := HostStep(account, today, hostname, counter, last);
            var message := ProcessingMessage(counter, hostname);
            |r.events| >= 2 && r.events[..2] == [Printed(message), Logged(Info, message)]
  {
    var found := Resolve(hostname, FilterByName(account.instances, hostname));
    var p := Record(ProcessingMessage(counter, hostname), INFO);
    var r := HostStep(account, today, hostname, counter, last).events;
    if found.instance.Some? {
      var e := InstanceStep(today, found.instance.value, last);
      AppendAssoc(p, found.events, e.events);
      assert (p + (found.events + e.events))[..|p|] == p;
    } else {
      assert (p + found.events)[..|p|] == p;
    }
  }

  /**
   * A line that is not blank is counted once and its stripped text is the
   * hostname: the first message names it with the new count, after what was
   * recorded before.
   */
  lemma HostLineCountedOnce(account: Account, today: string, line: string, st: JobState)
    requires !AllSpace(line) && st.fault.None?
    ensures var r := LineStep(account, today, line, st);
            var message := ProcessingMessage(st.counter + 1, Strip(line));
            && r.counter == st.counter + 1
            && |st.trace| + 2 <= |r.trace|
            && r.trace[..|st.trace| + 2] == st.trace + [Printed(message), Logged(Info, message)]
  {
    var e := HostStep(account, today, Strip(line), st.counter + 1, st.lastModification);
    HostStepOpens(account, today, Strip(line), st.counter + 1, st.lastModification);
    PrefixOfAppend(st.trace, e.events, 2);
  }

  /** The line's run stops with `InstanceNotFound` for its hostname exactly when no instance carries it. */
  lemma HostLineNotFound(account: Account, today: string, line: string, st: JobState)
    requires !AllSpace(line) && st.fault.None?
    ensures LineStep(account, today, line, st).fault == Some(InstanceNotFound(Strip(line))) <==>
              forall x :: x in account.instances ==> !HasName(x, Strip(line))
  {
    var hostname := Strip(line);
    var matches := FilterByName(account.instances, hostname);
    var found := Resolve(hostname, matches);
    if matches != [] {
      assert matches[0] in matches;
    }
    HostStepEffect(account, today, hostname, st.counter + 1, st.lastModification);
  }

  /** Without a fault, the counter ends at the number of non-blank lines. */
  lemma {:induction false} CounterCountsHostnames(account: Account, today: string, lines: seq<string>, st: JobState)
    requires st.fault.None?
    ensures var r := Lines(account, today, lines, st);
            r.fault.None? ==> r.counter == st.counter + |Hostnames(lines)|
    decreases |lines|
  {
    if lines != [] {
      var next := LineStep(account, today, lines[0], st);
      if next.fault.None? {
        CounterCountsHostnames(account, today, lines[1..], next);
        if AllSpace(lines[0]) {
          BlankLineSkipped(account, today, lines[0], lines[1..], st);
        } else {
          HostLineCountedOnce(account, today, lines[0], st);
        }
      }
    }
  }

  /**
   * A volume that is not gp2 gets one INFO message saying it is out of scope,
   * and nothing else: no snapshot, no conversion, no change of state.
   */
  lemma OutOfScopeVolumeOnlyLogged(ec2Name: string, costCenter: string, today: string, volume: Volume,
                                   last: Option<Modification>)
    requires volume.volumeType != "gp2"
    ensures var message := OutOfScopeMessage(volume);
            VolumeStep(ec2Name, costCenter, today, volume, last) ==
              Effect([Printed(message), Logged(Info, message)], last, None)
    ensures VolumeRequests(ec2Name, costCenter, today, volume) == []
  {
  }

  /**
   * How a gp2 volume ends: a failed snapshot or conversion request ends the
   * run; an empty snapshot id skips the conversion but still logs the
   * modification variables of an earlier volume, or ends the run when there
   * was none.
   */
  lemma Gp2VolumeOutcome(ec2Name: string, costCenter: string, today: string, volume: Volume,
                         last: Option<Modification>)
    requires volume.volumeType == "gp2"
    ensures var r := VolumeStep(ec2Name, costCenter, today, volume, last);
            var snapshot := volume.onSnapshot;
            && (|volume.devices| == 0 ==> r.fault == Some(NoAttachment(volume.id)) && r.events == [])
            && (|volume.devices| > 0 && snapshot.CreateFailed? ==> r.fault == Some(SnapshotMissing(volume.id)))
            && (|volume.devices| > 0 && !snapshot.CreateFailed? && |snapshot.snapshotId| > 0 ==>
                  match volume.onModify
                  case ModifyFailed(_) => r.fault == Some(ResponseMissing(volume.id))
                  case Modified(m) =>
                    r.fault.None? && r.lastModification == Some(m) &&
                    r.events[|r.events| - 1] == Logged(Info, ModificationMessage(m)))
            && (|volume.devices| > 0 && !snapshot.CreateFailed? && |snapshot.snapshotId| == 0 ==>
                  match last
                  case None => r.fault == Some(ModificationUnbound(volume.id))
                  case Some(stale) =>
                    r.fault.None? && r.lastModification == Some(stale) &&
                    r.events[|r.events| - 1] == Logged(Info, ModificationMessage(stale)))
  {
  }

  /** An unknown hostname ends the whole run: the lines after it are never read. */
  lemma UnknownHostEndsRun(account: Account, today: string, line: string, rest: seq<string>, st: JobState)
    requires st.fault.None? && !AllSpace(line)
    requires forall x :: x in account.instances ==> !HasName(x, Strip(line))
    ensures Lines(account, today, [line] + rest, st) == LineStep(account, today, line, st)
    ensures LineStep(account, today, line, st).fault == Some(InstanceNotFound(Strip(line)))
  {
    HostLineNotFound(account, today, line, st);
    assert ([line] + rest)[1..] == rest;
  }

  /** A run that faults does not record the `[ENDING]` message; one that does not, ends with it. */
  lemma JobEnding(account: Account, lines: seq<string>, today: string,
                  accountId: string, startTime: string, endTime: string)
    ensures var r := Job(account, lines, today, accountId, startTime, endTime);
            var st := Lines(account, today, lines, InitialState(accountId, startTime));
            && r.fault == st.fault
            && (r.fault.Some? ==> r.trace == st.trace)
            && (r.fault.None? ==> r.trace == st.trace + [Printed(EndMessage(endTime)), Logged(Info, EndMessage(endTime))])
  {
  }
}
