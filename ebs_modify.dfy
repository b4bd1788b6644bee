/**
 * The helpers of ebsModify.py: `record_message`, `getEc2_byName`,
 * `take_snap` and `gp3_convert`. What the job prints, logs and asks of the
 * provider is an `Event` trace; the provider's answers come from the
 * `Cloud` inputs.
 */
module EbsModify {
  import opened Builtins
  import opened AwsUtils
  import opened Cloud

  const INFO := "INFO"
  const WARNING := "WARNING"
  const ERROR := "ERROR"
  const CRITICAL := "CRITICAL"

  /** The severities of the log file (the logger's threshold is INFO, so all four are written). */
  datatype Severity = Info | Warning | Error | Critical

  function LevelName(s: Severity): string {
    match s
    case Info => INFO
    case Warning => WARNING
    case Error => ERROR
    case Critical => CRITICAL
  }

  /** The severity a level string selects in `record_message`, if any. */
  function LevelOf(level: string): (r: Option<Severity>)
    ensures r.Some? <==> level in {INFO, WARNING, ERROR, CRITICAL}
    ensures r.Some? ==> LevelName(r.value) == level
  {
    if level == INFO then Some(Info)
    else if level == WARNING then Some(Warning)
    else if level == ERROR then Some(Error)
    else if level == CRITICAL then Some(Critical)
    else None
  }

  /** The arguments of one `create_snapshot` call. */
  datatype SnapshotRequest = SnapshotRequest(
    volumeId: string,
    description: string,
    resourceType: string,
    tags: seq<Tag>)

  /** One observable effect of the job, in the order it happens. */
  datatype Event =
      /** A line on standard output. */
    | Printed(text: string)
      /** A record in the dated log file. */
    | Logged(severity: Severity, text: string)
    | SnapshotRequested(request: SnapshotRequest)
    | ConversionRequested(volumeId: string, volumeType: string)

  /**
   * `record_message(message, level)`: the message is always printed, and
   * logged at the matching severity for the four known level names only.
   */
  function Record(message: string, level: string): (r: seq<Event>)
    ensures |r| > 0 && r[0] == Printed(message)
    ensures level !in {INFO, WARNING, ERROR, CRITICAL} ==> r == [Printed(message)]
    ensures level in {INFO, WARNING, ERROR, CRITICAL} ==> r == [Printed(message), Logged(LevelOf(level).value, message)]
  {
    [Printed(message)] + match LevelOf(level) {
      case None => []
      case Some(s) => [Logged(s, message)]
    }
  }

  /** What `getEc2_byName` yields: the messages it records and the instance, `None` when `pop()` fails. */
  datatype Resolution = Resolution(events: seq<Event>, instance: Option<Instance>)

  function MultipleMatchWarning(hostname: string): string {
    "Multiple EC2 instances found with " + hostname + " using the last one"
  }

  /**
   * The tie-break of `getEc2_byName` over the filtered instance list: warn
   * when more than one instance matches, and take the last one.
   */
  function Resolve(hostname: string, matches: seq<Instance>): (r: Resolution)
    ensures r.instance.Some? <==> |matches| > 0
    ensures r.instance.Some? ==> r.instance.value == matches[|matches| - 1]
    ensures |matches| > 1 ==> r.events == [Printed(MultipleMatchWarning(hostname)), Logged(Warning, MultipleMatchWarning(hostname))]
    ensures |matches| <= 1 ==> r.events == []
  {
    Resolution(
      if |matches| > 1 then Record(MultipleMatchWarning(hostname), WARNING) else [],
      if |matches| == 0 then None else Some(matches[|matches| - 1]))
  }

  /** `getEc2_byName(ec2, hostname)` against the account's listing. */
  method GetEc2ByName(account: Account, hostname: string) returns (events: seq<Event>, instance: Option<Instance>)
    ensures Resolution(events, instance) == Resolve(hostname, FilterByName(account.instances, hostname))
  {
    var instanceList := FilterByName(account.instances, hostname);
    events := [];
    if |instanceList| > 1 {
      events := Record(MultipleMatchWarning(hostname), WARNING);
    }
    if |instanceList| == 0 {
      // `pop()` on an empty list raises
      instance := None;
      return;
    }
    instance := Some(instanceList[|instanceList| - 1]);
    instanceList := instanceList[..|instanceList| - 1];
  }

  /** The per-volume dictionary `volmap` that `main` builds and hands to `take_snap`. */
  datatype VolumeDescriptor = VolumeDescriptor(
    ec2Name: string,
    costCenter: string,
    device: string,
    volumeId: string,
    volumeType: string,
    size: nat,
    createTime: string)

  /** The `create_snapshot` arguments `take_snap` builds; `today` is `str(date.today())`. */
  function SnapshotRequestFor(volmap: VolumeDescriptor, today: string): (r: SnapshotRequest)
    ensures r.volumeId == volmap.volumeId
    ensures r.resourceType == "snapshot"
    ensures r.description == "Created for " + volmap.ec2Name + " - " + volmap.device
    ensures |r.tags| == 4
  {
    SnapshotRequest(
      volmap.volumeId,
      "Created for " + volmap.ec2Name + " - " + volmap.device,
      "snapshot",
      [ Tag("Name", "gp3-convert-" + volmap.volumeId),
        Tag("CostCenterID", volmap.costCenter),
        Tag("CreatedDate", today),
        Tag("TTL", "20") ])
  }

  /** The snapshot's tags, read as the dictionary the provider stores: exactly these four keys. */
  lemma SnapshotTagsAsMap(volmap: VolumeDescriptor, today: string)
    ensures TagMap(SnapshotRequestFor(volmap, today).tags) ==
              map["Name" := "gp3-convert-" + volmap.volumeId,
                  "CostCenterID" := volmap.costCenter,
                  "CreatedDate" := today,
                  "TTL" := "20"]
  {
    var tags := SnapshotRequestFor(volmap, today).tags;
    assert TagMap(tags[..1]) == map["Name" := tags[0].value] by {
      assert tags[..1][..0] == [];
    }
    assert TagMap(tags[..2]) == TagMap(tags[..1])["CostCenterID" := tags[1].value] by {
      assert tags[..2][..1] == tags[..1];
    }
    assert TagMap(tags[..3]) == TagMap(tags[..2])["CreatedDate" := tags[2].value] by {
      assert tags[..3][..2] == tags[..2];
    }
    assert tags[..4] == tags;
    assert TagMap(tags) == TagMap(tags[..3])["TTL" := tags[3].value] by {
      assert tags[..3] == tags[..|tags| - 1];
    }
  }

  /** What `take_snap` yields: its effects and `snapshot.id`, `None` when `snapshot` is still `None`. */
  datatype Snap = Snap(events: seq<Event>, snapshotId: Option<string>)

  function SnapshotErrorMessage(volumeId: string, error: string): string {
    "ERROR creating snapshot for EBS volume id " + volumeId + " error message: " + error
  }

  /**
   * `take_snap(ec2, volmap)`: request the snapshot, and on an exception log
   * it as CRITICAL and still return `snapshot.id`, which fails when
   * `create_snapshot` itself raised.
   */
  function TakeSnap(volmap: VolumeDescriptor, today: string, outcome: SnapshotOutcome): (r: Snap)
    ensures |r.events| > 0 && r.events[0] == SnapshotRequested(SnapshotRequestFor(volmap, today))
    ensures r.snapshotId.None? <==> outcome.CreateFailed?
    ensures !outcome.CreateFailed? ==> r.snapshotId == Some(outcome.snapshotId)
    ensures outcome.Completed? ==> |r.events| == 1
    ensures !outcome.Completed? ==>
              r.events[1..] == Record(SnapshotErrorMessage(volmap.volumeId, outcome.error), CRITICAL)
  {
    var request := [SnapshotRequested(SnapshotRequestFor(volmap, today))];
    match outcome
    case CreateFailed(error) =>
      Snap(request + Record(SnapshotErrorMessage(volmap.volumeId, error), CRITICAL), None)
    case WaitFailed(id, error) =>
      Snap(request + Record(SnapshotErrorMessage(volmap.volumeId, error), CRITICAL), Some(id))
    case Completed(id) =>
      Snap(request, Some(id))
  }

  /** What `gp3_convert` yields: its effects and the response, `None` after an exception. */
  datatype Conversion = Conversion(events: seq<Event>, response: Option<Modification>)

  function ConversionErrorMessage(volumeId: string, error: string): string {
    "ERROR converting EBS volume id " + volumeId + " to gp3" + " error message: " + error
  }

  /**
   * `gp3_convert(session, vol_id)`: request type `gp3` for the volume; on an
   * exception log it as CRITICAL and return `None`.
   */
  function Gp3Convert(volumeId: string, outcome: ModifyOutcome): (r: Conversion)
    ensures |r.events| > 0 && r.events[0] == ConversionRequested(volumeId, "gp3")
    ensures r.response.None? <==> outcome.ModifyFailed?
    ensures outcome.Modified? ==> r.response == Some(outcome.modification) && |r.events| == 1
    ensures outcome.ModifyFailed? ==>
              r.events[1..] == Record(ConversionErrorMessage(volumeId, outcome.error), CRITICAL)
  {
    var request := [ConversionRequested(volumeId, "gp3")];
    match outcome
    case ModifyFailed(error) =>
      Conversion(request + Record(ConversionErrorMessage(volumeId, error), CRITICAL), None)
    case Modified(modification) =>
      Conversion(request, Some(modification))
  }
}

module EbsModifyFacts {
  import opened Builtins
  import opened Cloud
  import opened EbsModify

  /** Each severity's name selects that severity again. */
  lemma LevelNameRoundTrip(s: Severity)
    ensures LevelOf(LevelName(s)) == Some(s)
  {
  }

  /** A message recorded at a severity's name is printed, then logged at that severity. */
  lemma RecordAtSeverity(message: string, s: Severity)
    ensures Record(message, LevelName(s)) == [Printed(message), Logged(s, message)]
  {
    LevelNameRoundTrip(s);
  }

  /** The instance a filtered list ends with sits at position `k` of the listing, with no named instance after it. */
  lemma {:induction false} FilterByNameLast(instances: seq<Instance>, hostname: string) returns (k: nat)
    requires |FilterByName(instances, hostname)| > 0
    ensures k < |instances|
    ensures instances[k] == FilterByName(instances, hostname)[|FilterByName(instances, hostname)| - 1]
    ensures HasName(instances[k], hostname)
    ensures forall j :: k < j < |instances| ==> !HasName(instances[j], hostname)
    decreases |instances|
  {
    var matches := FilterByName(instances, hostname);
    var tail := instances[1..];
    var rest := FilterByName(tail, hostname);
    if HasName(instances[0], hostname) {
      assert matches == [instances[0]] + rest;
    } else {
      assert matches == rest;
    }
    if |rest| > 0 {
      var k' := FilterByNameLast(tail, hostname);
      k := k' + 1;
      assert instances[k] == tail[k'];
      forall j | k < j < |instances| ensures !HasName(instances[j], hostname) {
        assert instances[j] == tail[j - 1];
      }
    } else {
      k := 0;
      forall j | 0 < j < |instances| ensures !HasName(instances[j], hostname) {
        assert instances[j] == tail[j - 1];
        assert instances[j] in tail;
      }
    }
  }

  /**
   * `getEc2_byName` fails exactly when no instance carries the name; otherwise
   * it returns a named instance of the account after which the listing holds
   * no other named instance, and it warns exactly when the name is ambiguous:
   * when two positions of the listing carry it.
   */
  lemma ResolvedInstanceIsLastNamed(account: Account, hostname: string)
    ensures var r := Resolve(hostname, FilterByName(account.instances, hostname));
            && (r.instance.None? <==> forall x :: x in account.instances ==> !HasName(x, hostname))
            && (r.instance.Some? ==>
                  exists k :: 0 <= k < |account.instances| && account.instances[k] == r.instance.value &&
                              HasName(account.instances[k], hostname) &&
                              forall j :: k < j < |account.instances| ==> !HasName(account.instances[j], hostname))
            && (|r.events| > 0 <==> |FilterByName(account.instances, hostname)| > 1)
            && (|r.events| > 0 <==> TwoNamed(account.instances, hostname))
  {
    var matches := FilterByName(account.instances, hostname);
    if |matches| > 0 {
      var k := FilterByNameLast(account.instances, hostname);
      assert matches[0] in matches;
    }
    AmbiguousIffTwoNamed(account.instances, hostname);
  }

  /** Two different positions of the listing carry the name. */
  predicate TwoNamed(instances: seq<Instance>, hostname: string) {
    exists p, q :: 0 <= p < q < |instances| && HasName(instances[p], hostname) && HasName(instances[q], hostname)
  }

  /** The filter returns more than one instance exactly when two positions of the listing carry the name. */
  lemma AmbiguousIffTwoNamed(instances: seq<Instance>, hostname: string)
    ensures |FilterByName(instances, hostname)| > 1 <==> TwoNamed(instances, hostname)
  {
    var pos := FilterByNamePositions(instances, hostname);
    TwoPositions(instances, hostname, pos);
  }

  lemma TwoPositions(instances: seq<Instance>, hostname: string, pos: seq<nat>)
    requires forall i :: 0 <= i < |pos| ==> pos[i] < |instances|
    requires forall i, j :: 0 <= i < j < |pos| ==> pos[i] < pos[j]
    requires forall k :: 0 <= k < |instances| ==> (k in pos <==> HasName(instances[k], hostname))
    ensures |pos| > 1 <==> TwoNamed(instances, hostname)
  {
    if |pos| > 1 {
      assert pos[0] in pos && pos[1] in pos;
      assert pos[0] < pos[1];
    }
    if TwoNamed(instances, hostname) {
      var p, q :| 0 <= p < q < |instances| && HasName(instances[p], hostname) && HasName(instances[q], hostname);
      assert p in pos && q in pos;
      var i :| 0 <= i < |pos| && pos[i] == p;
      var j :| 0 <= j < |pos| && pos[j] == q;
      assert i != j;
    }
  }
}
