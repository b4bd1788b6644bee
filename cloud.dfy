/**
 * The abstract cloud the job runs against. What the provider would answer to
 * a snapshot or a modification request for a volume is part of the input,
 * carried on the volume itself, so the workflow is a function of its inputs.
 */
module Cloud {
  import opened Builtins
  import opened AwsUtils

  /** What `create_snapshot` followed by `wait_until_completed` does for a volume. */
  datatype SnapshotOutcome =
      /** `create_snapshot` raised: no snapshot object exists. */
    | CreateFailed(error: string)
      /** The snapshot was created but waiting for it raised. */
    | WaitFailed(snapshotId: string, error: string)
    | Completed(snapshotId: string)

  /** The `VolumeModification` part of a `modify_volume` response. */
  datatype Modification = Modification(volumeId: string, state: string, targetSize: nat, targetType: string)

  /** What `modify_volume` does for a volume. */
  datatype ModifyOutcome =
    | ModifyFailed(error: string)
    | Modified(modification: Modification)

  /**
   * An EBS volume: its identity and attributes, the `Device` of each of its
   * attachments in order, and the provider's answers for it.
   */
  datatype Volume = Volume(
    id: string,
    volumeType: string,
    size: nat,
    createTime: string,
    devices: seq<string>,
    onSnapshot: SnapshotOutcome,
    onModify: ModifyOutcome)

  /** An EC2 instance: its tags (`None` when it has none) and its volumes in listing order. */
  datatype Instance = Instance(id: string, tags: Option<seq<Tag>>, volumes: seq<Volume>)

  /** The account's instances, in the provider's listing order. */
  datatype Account = Account(instances: seq<Instance>)

  /** The instance carries a tag `Name` with this value. */
  predicate HasName(instance: Instance, hostname: string) {
    instance.tags.Some? && Tag("Name", hostname) in instance.tags.value
  }

  /**
   * `ec2.instances.filter(Filters=[{'Name': 'tag:Name', 'Values': [hostname]}])`:
   * the instances carrying the name, in listing order.
   */
  function FilterByName(instances: seq<Instance>, hostname: string): (r: seq<Instance>)
    ensures |r| <= |instances|
    ensures forall x :: x in r <==> x in instances && HasName(x, hostname)
    decreases |instances|
  {
    if instances == [] then []
    else
      var rest := FilterByName(instances[1..], hostname);
      if HasName(instances[0], hostname) then [instances[0]] + rest else rest
  }

  /**
   * The filter keeps the listing's order and one entry per named instance:
   * its result is the listing at the increasing positions `pos`, and those
   * are all the positions whose instance carries the name.
   */
  lemma {:induction false} FilterByNamePositions(instances: seq<Instance>, hostname: string) returns (pos: seq<nat>)
    ensures |pos| == |FilterByName(instances, hostname)|
    ensures forall i :: 0 <= i < |pos| ==>
              pos[i] < |instances| && instances[pos[i]] == FilterByName(instances, hostname)[i]
    ensures forall i, j :: 0 <= i < j < |pos| ==> pos[i] < pos[j]
    ensures forall k :: 0 <= k < |instances| ==> (k in pos <==> HasName(instances[k], hostname))
    decreases |instances|
  {
    if instances == [] {
      return [];
    }
    var tail := instances[1..];
    var rest := FilterByNamePositions(tail, hostname);
    var named := HasName(instances[0], hostname);
    var head: seq<nat> := if named then [0] else [];
    var front := if named then [instances[0]] else [];
    pos := head + Shift(rest);
    assert FilterByName(instances, hostname) == front + FilterByName(tail, hostname);
    ConsEntries(instances, head, front, FilterByName(tail, hostname), rest);
    ConsIncreasing(head, rest);
    ConsMembers(instances, hostname, head, rest);
  }

  /** Every position one further on. */
  function Shift(rest: seq<nat>): (r: seq<nat>)
    ensures |r| == |rest|
    ensures forall i :: 0 <= i < |rest| ==> r[i] == rest[i] + 1
  {
    seq(|rest|, i requires 0 <= i < |rest| => rest[i] + 1)
  }

  lemma ConsEntries(instances: seq<Instance>, head: seq<nat>, front: seq<Instance>, tailMatches: seq<Instance>,
                    rest: seq<nat>)
    requires |instances| > 0 && |rest| == |tailMatches|
    requires (head == [] && front == []) || (head == [0] && front == [instances[0]])
    requires forall i :: 0 <= i < |rest| ==> rest[i] < |instances| - 1 && instances[1..][rest[i]] == tailMatches[i]
    ensures |head + Shift(rest)| == |front + tailMatches|
    ensures forall i :: 0 <= i < |head + Shift(rest)| ==>
              (head + Shift(rest))[i] < |instances| && instances[(head + Shift(rest))[i]] == (front + tailMatches)[i]
  {
    var pos := head + Shift(rest);
    var matches := front + tailMatches;
    forall i | 0 <= i < |pos|
      ensures pos[i] < |instances| && instances[pos[i]] == matches[i]
    {
      if i >= |head| {
        assert pos[i] == rest[i - |head|] + 1 && matches[i] == tailMatches[i - |head|];
        assert instances[pos[i]] == instances[1..][rest[i - |head|]];
      }
    }
  }

  lemma ConsIncreasing(head: seq<nat>, rest: seq<nat>)
    requires head == [] || head == [0]
    requires forall i, j :: 0 <= i < j < |rest| ==> rest[i] < rest[j]
    ensures forall i, j :: 0 <= i < j < |head + Shift(rest)| ==> (head + Shift(rest))[i] < (head + Shift(rest))[j]
  {
    var pos := head + Shift(rest);
    forall i, j | 0 <= i < j < |pos| ensures pos[i] < pos[j] {
      assert pos[j] == rest[j - |head|] + 1;
      if i >= |head| {
        assert pos[i] == rest[i - |head|] + 1;
      }
    }
  }

  lemma ConsMembers(instances: seq<Instance>, hostname: string, head: seq<nat>, rest: seq<nat>)
    requires |instances| > 0
    requires head == (if HasName(instances[0], hostname) then [0] else [])
    requires forall k :: 0 <= k < |instances| - 1 ==> (k in rest <==> HasName(instances[1..][k], hostname))
    ensures forall k :: 0 <= k < |instances| ==> (k in head + Shift(rest) <==> HasName(instances[k], hostname))
  {
    var shifted := Shift(rest);
    var pos := head + shifted;
    forall k | 0 <= k < |instances|
      ensures k in pos <==> HasName(instances[k], hostname)
    {
      assert k in pos <==> k in head || k in shifted;
      if k > 0 {
        assert instances[k] == instances[1..][k - 1];
        if k in shifted {
          var i :| 0 <= i < |shifted| && shifted[i] == k;
          assert rest[i] == k - 1;
        }
        if k - 1 in rest {
          var i :| 0 <= i < |rest| && rest[i] == k - 1;
          assert shifted[i] == k;
        }
      }
    }
  }
}
