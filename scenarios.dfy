/**
 * Small examples of the line loop: lines naming the instances `HostA` and
 * `HostC` or no instance at all, worked on from any state without a fault,
 * for any account whose name filter gives those instances.
 */
module Scenarios {
  import opened Builtins
  import opened AwsUtils
  import opened Cloud
  import opened EbsModify
  import opened Workflow
  import opened WorkflowFacts

  const Vol1 := Volume("vol-1", "gp2", 8, "2020-01-01 00:00:00+00:00", ["/dev/xvda"],
                       Completed("snap-1"), Modified(Modification("vol-1", "modifying", 8, "gp3")))

  const HostA := Instance("i-a", Some([Tag("Name", "host-a"), Tag("CostCenterID", "cc-1")]), [Vol1])

  const Vol2 := Volume("vol-2", "gp3", 20, "2021-06-01 00:00:00+00:00", ["/dev/xvda"],
                       Completed("snap-2"), ModifyFailed("unexpected"))

  const HostC := Instance("i-c", Some([Tag("Name", "host-c"), Tag("CostCenterID", "cc-3")]), [Vol2])

  lemma HostTags()
    ensures InstanceTags(HostA) == map["Name" := "host-a", "CostCenterID" := "cc-1"]
    ensures InstanceTags(HostC) == map["Name" := "host-c", "CostCenterID" := "cc-3"]
  {
    var a := [Tag("Name", "host-a")];
    assert a[..0] == [];
    assert HostA.tags.value[..1] == a;
    var c := [Tag("Name", "host-c")];
    assert c[..0] == [];
    assert HostC.tags.value[..1] == c;
  }

  /** The snapshot request for `vol-1` of `host-a` on the given day. */
  function Vol1Snapshot(today: string): SnapshotRequest {
    SnapshotRequestFor(VolumeDescriptor("host-a", "cc-1", "/dev/xvda", "vol-1", "gp2", 8, "2020-01-01 00:00:00+00:00"), today)
  }

  lemma StripExamples()
    ensures Strip("host-a\n") == "host-a"
    ensures Strip("host-b\n") == "host-b"
    ensures Strip("host-c") == "host-c"
  {
    StripNewline("host-a");
    assert "host-a" + "\n" == "host-a\n";
    StripNewline("host-b");
    assert "host-b" + "\n" == "host-b\n";
  }

  lemma FilterExamples()
    ensures FilterByName([HostA], "host-a") == [HostA]
    ensures FilterByName([HostA], "host-b") == []
    ensures FilterByName([HostC], "host-c") == [HostC]
  {
    assert HostA.tags.value[0] == Tag("Name", "host-a");
    assert !HasName(HostA, "host-b");
    assert HostC.tags.value[0] == Tag("Name", "host-c");
  }

  /** One line whose hostname names exactly one instance. */
  lemma LineStepFound(account: Account, today: string, line: string, hostname: string, instance: Instance, st: JobState)
    requires st.fault.None? && hostname != "" && Strip(line) == hostname
    requires FilterByName(account.instances, hostname) == [instance]
    ensures var e := InstanceStep(today, instance, st.lastModification);
            LineStep(account, today, line, st) ==
              JobState(st.counter + 1, e.lastModification,
                       st.trace + (Record(ProcessingMessage(st.counter + 1, hostname), INFO) + e.events), e.fault)
  {
    var p := Record(ProcessingMessage(st.counter + 1, hostname), INFO);
    assert p + Resolve(hostname, [instance]).events == p;
  }

  /** An instance with both tags runs its volume loop. */
  lemma InstanceStepTagged(today: string, instance: Instance, name: string, costCenter: string, last: Option<Modification>)
    requires InstanceTags(instance) == map["Name" := name, "CostCenterID" := costCenter]
    ensures var v := Volumes(name, costCenter, today, instance.volumes, last);
            InstanceStep(today, instance, last) ==
              Effect(Record("EC2 Name: " + name, INFO) + Record("EC2 CostCenterID: " + costCenter, INFO) + v.events,
                     v.lastModification, v.fault)
  {
  }

  lemma VolumesSingle(ec2Name: string, costCenter: string, today: string, volume: Volume, last: Option<Modification>)
    ensures var v := VolumeStep(ec2Name, costCenter, today, volume, last);
            Volumes(ec2Name, costCenter, today, [volume], last) == v
  {
    assert [volume][1..] == [];
    var v := VolumeStep(ec2Name, costCenter, today, volume, last);
    assert v.events + [] == v.events;
  }

  lemma LinesCons(account: Account, today: string, line: string, rest: seq<string>, st: JobState)
    requires st.fault.None?
    ensures Lines(account, today, [line] + rest, st) == Lines(account, today, rest, LineStep(account, today, line, st))
  {
    assert ([line] + rest)[1..] == rest;
  }

  lemma TwoLines(account: Account, today: string, first: string, second: string, st: JobState)
    requires st.fault.None? && LineStep(account, today, first, st).fault.None?
    ensures Lines(account, today, [first, second], st) ==
              LineStep(account, today, second, LineStep(account, today, first, st))
  {
    LinesCons(account, today, first, [second], st);
    LinesCons(account, today, second, [], LineStep(account, today, first, st));
    assert [first, second] == [first] + [second];
    assert [second] == [second] + [];
  }

  /** `vol-1` is snapshotted, then converted, and the loop goes on. */
  lemma Vol1Step(today: string, last: Option<Modification>)
    ensures var v := VolumeStep("host-a", "cc-1", today, Vol1, last);
            v.fault.None? && Requests(v.events) == [SnapshotRequested(Vol1Snapshot(today)), ConversionRequested("vol-1", "gp3")]
  {
    Gp2VolumeOutcome("host-a", "cc-1", today, Vol1, last);
    VolumeStepRequests("host-a", "cc-1", today, Vol1, last);
    assert Descriptor("host-a", "cc-1", Vol1, "/dev/xvda") ==
           VolumeDescriptor("host-a", "cc-1", "/dev/xvda", "vol-1", "gp2", 8, "2020-01-01 00:00:00+00:00");
  }

  /** So does the work on `host-a`, its only volume. */
  lemma HostAInstance(today: string, last: Option<Modification>)
    ensures var e := InstanceStep(today, HostA, last);
            e.fault.None? && Requests(e.events) == [SnapshotRequested(Vol1Snapshot(today)), ConversionRequested("vol-1", "gp3")]
  {
    var e := InstanceStep(today, HostA, last);
    var v := VolumeStep("host-a", "cc-1", today, Vol1, last);
    var tags := Record("EC2 Name: " + "host-a", INFO) + Record("EC2 CostCenterID: " + "cc-1", INFO);
    assert e == Effect(tags + v.events, v.lastModification, v.fault) by {
      HostTags();
      InstanceStepTagged(today, HostA, "host-a", "cc-1", last);
      VolumesSingle("host-a", "cc-1", today, Vol1, last);
    }
    Vol1Step(today, last);
    RequestsAfterRecord(Record("EC2 Name: " + "host-a", INFO), "EC2 CostCenterID: " + "cc-1", INFO);
    RequestsOfRecord("EC2 Name: " + "host-a", INFO);
    RequestsAppend(tags, v.events);
  }

  /** The line `host-a` snapshots `vol-1` and converts it to gp3. */
  lemma HostALine(account: Account, today: string, st: JobState)
    requires st.fault.None? && FilterByName(account.instances, "host-a") == [HostA]
    ensures var r := LineStep(account, today, "host-a\n", st);
            && r.fault.None? && r.counter == st.counter + 1
            && Requests(r.trace) == Requests(st.trace) + [SnapshotRequested(Vol1Snapshot(today)), ConversionRequested("vol-1", "gp3")]
  {
    var e := InstanceStep(today, HostA, st.lastModification);
    var p := Record(ProcessingMessage(st.counter + 1, "host-a"), INFO);
    assert LineStep(account, today, "host-a\n", st) ==
           JobState(st.counter + 1, e.lastModification, st.trace + (p + e.events), e.fault) by {
      StripExamples();
      LineStepFound(account, today, "host-a\n", "host-a", HostA, st);
    }
    HostAInstance(today, st.lastModification);
    RequestsOfRecord(ProcessingMessage(st.counter + 1, "host-a"), INFO);
    RequestsAppend(st.trace, p + e.events);
    RequestsAppend(p, e.events);
  }

  /** The line `host-b` names no instance: the run stops after the processing message. */
  lemma HostBLine(account: Account, today: string, st: JobState)
    requires st.fault.None? && FilterByName(account.instances, "host-b") == []
    ensures var r := LineStep(account, today, "host-b\n", st);
            && r.fault == Some(InstanceNotFound("host-b"))
            && r.trace == st.trace + Record(ProcessingMessage(st.counter + 1, "host-b"), INFO)
  {
    StripExamples();
    var p := Record(ProcessingMessage(st.counter + 1, "host-b"), INFO);
    assert p + [] == p;
  }

  /**
   * An input file with a line for `host-a`, which names just the instance
   * holding one attached gp2 volume `vol-1`, then one for `host-b`, which
   * names no instance (`Account([HostA])` is such an account, by
   * `FilterExamples`): `vol-1` is snapshotted and converted to gp3, and the
   * run stops at `host-b` with the processing message as its last record.
   */
  lemma HostAThenUnknownHostB(account: Account, today: string, st: JobState)
    requires st.fault.None?
    requires FilterByName(account.instances, "host-a") == [HostA] && FilterByName(account.instances, "host-b") == []
    ensures var r := Lines(account, today, ["host-a\n", "host-b\n"], st);
            && r.fault == Some(InstanceNotFound("host-b"))
            && Requests(r.trace) == Requests(st.trace) + [SnapshotRequested(Vol1Snapshot(today)), ConversionRequested("vol-1", "gp3")]
            && r.trace[|r.trace| - 1] == Logged(Info, ProcessingMessage(st.counter + 2, "host-b"))
  {
    var afterA := LineStep(account, today, "host-a\n", st);
    HostALine(account, today, st);
    HostBLine(account, today, afterA);
    RequestsAfterRecord(afterA.trace, ProcessingMessage(st.counter + 2, "host-b"), INFO);
    TwoLines(account, today, "host-a\n", "host-b\n", st);
  }

  /** The line `host-c` only reports that its gp3 volume is out of scope. */
  lemma HostCLine(account: Account, today: string, st: JobState)
    requires st.fault.None? && FilterByName(account.instances, "host-c") == [HostC]
    ensures var message := OutOfScopeMessage(Vol2);
            LineStep(account, today, "host-c", st) ==
              st.(counter := st.counter + 1,
                  trace := st.trace + (Record(ProcessingMessage(st.counter + 1, "host-c"), INFO) +
                                       (Record("EC2 Name: " + "host-c", INFO) + Record("EC2 CostCenterID: " + "cc-3", INFO) +
                                        [Printed(message), Logged(Info, message)])))
  {
    var last := st.lastModification;
    var e := InstanceStep(today, HostC, last);
    var v := VolumeStep("host-c", "cc-3", today, Vol2, last);
    assert LineStep(account, today, "host-c", st) ==
           JobState(st.counter + 1, e.lastModification,
                    st.trace + (Record(ProcessingMessage(st.counter + 1, "host-c"), INFO) + e.events), e.fault) by {
      StripExamples();
      LineStepFound(account, today, "host-c", "host-c", HostC, st);
    }
    assert e == Effect(Record("EC2 Name: " + "host-c", INFO) + Record("EC2 CostCenterID: " + "cc-3", INFO) + v.events,
                       v.lastModification, v.fault) by {
      HostTags();
      InstanceStepTagged(today, HostC, "host-c", "cc-3", last);
      VolumesSingle("host-c", "cc-3", today, Vol2, last);
    }
    OutOfScopeVolumeOnlyLogged("host-c", "cc-3", today, Vol2, last);
  }

  /**
   * An input file holding only `host-c`, whose one volume is gp3 (as in
   * `Account([HostC])`): the line is counted, the tags are reported, then a
   * single out-of-scope message, and nothing is asked of the provider.
   */
  lemma HostCOutOfScope(account: Account, today: string, st: JobState)
    requires st.fault.None? && FilterByName(account.instances, "host-c") == [HostC]
    ensures var message := OutOfScopeMessage(Vol2);
            var r := Lines(account, today, ["host-c"], st);
            && r.fault.None? && r.counter == st.counter + 1 && r.lastModification == st.lastModification
            && r.trace == st.trace + (Record(ProcessingMessage(st.counter + 1, "host-c"), INFO) +
                                      (Record("EC2 Name: " + "host-c", INFO) + Record("EC2 CostCenterID: " + "cc-3", INFO) +
                                       [Printed(message), Logged(Info, message)]))
            && Requests(r.trace) == Requests(st.trace)
  {
    var message := OutOfScopeMessage(Vol2);
    var p := Record(ProcessingMessage(st.counter + 1, "host-c"), INFO);
    var name := Record("EC2 Name: " + "host-c", INFO);
    var tags := name + Record("EC2 CostCenterID: " + "cc-3", INFO);
    var events := p + (tags + [Printed(message), Logged(Info, message)]);
    HostCLine(account, today, st);
    assert Lines(account, today, ["host-c"], st) == LineStep(account, today, "host-c", st) by {
      LinesCons(account, today, "host-c", [], st);
      assert ["host-c"] == ["host-c"] + [];
    }
    assert Requests(events) == [] by {
      RequestsOfRecord(ProcessingMessage(st.counter + 1, "host-c"), INFO);
      RequestsOfRecord("EC2 Name: " + "host-c", INFO);
      RequestsAfterRecord(name, "EC2 CostCenterID: " + "cc-3", INFO);
      RequestsAfterRecord(tags, message, INFO);
      RequestsAppend(p, tags + [Printed(message), Logged(Info, message)]);
    }
    RequestsAppend(st.trace, events);
  }
}
