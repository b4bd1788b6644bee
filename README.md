# EBS gp2 → gp3 conversion job, modelled in Dafny

`ebsModify.py` reads a file of EC2 hostnames. For each hostname it finds the
instance tagged `Name=<hostname>` and reads the instance's `Name` and
`CostCenterID` tags. Then, for each attached volume of type `gp2`, it takes a
tagged snapshot and asks the provider to change the volume type to `gp3`.
Every step is printed and logged. `src/awsutils.py` supplies the tag-list to
dictionary conversion, the region-code table, the region listing and the
choice between key-pair and profile credentials.

The model runs against an abstract cloud (`Cloud`):

- An `Account` is a sequence of `Instance`s in listing order.
- Each instance carries its tag list and its `Volume`s.
- Each volume carries what the provider would answer: a `SnapshotOutcome` for
  `create_snapshot` followed by `wait_until_completed`, and a `ModifyOutcome`
  for `modify_volume`.

What the job prints, logs and asks of the provider is a trace of `Event`s:

- `Printed`, a line on standard output;
- `Logged`, a record in the log file at a `Severity`;
- `SnapshotRequested`, with the full `create_snapshot` arguments;
- `ConversionRequested`, a request to change a volume's type.

An exception that Python would let escape from `main` is a `Fault`. It stops
the run, and the `[ENDING]` message is then never recorded.

Modules:

- `Builtins` (`builtins.dfy`): `Option`, Python's `str.strip()` and `str()` of a
  non-negative integer.
- `AwsUtils` / `AwsUtilsFacts` (`awsutils.dfy`): `tags_to_map`, `get_regions`,
  the credential branch, `authenticate` and `resolve_region`.
- `Cloud` (`cloud.dfy`): the abstract provider, and the `tag:Name` filter of
  `ec2.instances.filter`.
- `EbsModify` / `EbsModifyFacts` (`ebs_modify.dfy`): `record_message`,
  `getEc2_byName`, `take_snap` and `gp3_convert`.
- `Workflow` (`workflow.dfy`): `main` twice over.
  - The specification is `Job`, a fold over the input lines (`Lines`, `LineStep`),
    the work on a hostname (`HostStep`), the work on an instance
    (`InstanceStep`) and the volume loop (`Volumes`, `VolumeStep`).
  - The loop-and-variables form follows the Python: `RunJob`, `ProcessLine`,
    `ProcessHost`, `ProcessInstance`, `ConvertVolumes` and `ConvertVolume`.
  - Each method is proved to compute exactly its specification function.
- `WorkflowFacts` (`workflow_facts.dfy`): what the workflow guarantees, proved
  about the specification. It covers the requests sent, their safety, the line
  counter, the fault outcomes and the ending message.
- `Scenarios` (`scenarios.dfy`): small accounts run through the line loop.

## Message texts

Each message the job prints and logs is a function whose text follows the
source character for character:

- `Workflow.StartMessage`: ebsModify.py:149;
- `Workflow.EndMessage`: ebsModify.py:218;
- `Workflow.ProcessingMessage`: ebsModify.py:160;
- `Workflow.VolumeInfoMessage`: ebsModify.py:189-190;
- `Workflow.ModificationMessage`: ebsModify.py:207-208;
- `Workflow.OutOfScopeMessage`: ebsModify.py:215;
- `EbsModify.MultipleMatchWarning`: ebsModify.py:55-56;
- `EbsModify.SnapshotErrorMessage`: ebsModify.py:116-117;
- `EbsModify.ConversionErrorMessage`: ebsModify.py:70-71.

## Behaviour on error paths

Each uncaught Python exception ends the whole run. Each case below is a `Fault`.

- **Unknown hostname.** `getEc2_byName` calls `instanceList.pop()` on the
  empty list. Nothing in `main` catches the error, so the lines after it are
  never read (`InstanceNotFound`, `UnknownHostEndsRun`).
- **Missing tag.** `tags['Name']` or `tags['CostCenterID']` on an instance
  without that tag raises `KeyError` (`MissingTag`, `InstanceStepEffect`).
- **Volume without attachment.** `volume.attachments[0]` on a gp2 volume with
  no attachment raises (`NoAttachment`).
- **Failed `create_snapshot`.** `take_snap` logs the error at CRITICAL, then
  reads `snapshot.id` with `snapshot` still `None`, which raises
  (`SnapshotMissing`).
- **Failed `wait_until_completed`.** `take_snap` logs the error at CRITICAL
  and returns the snapshot id. The conversion is then requested as usual:
  the conversion depends only on a non-empty id, not on a completed
  snapshot (`VolumeRequests`, `TakeSnap`).
- **Failed conversion.** `gp3_convert` logs the error at CRITICAL and
  returns `None`. `main` then subscripts it, which raises (`ResponseMissing`).
- **Empty snapshot id.** The conversion is skipped, but the modification
  message is still recorded. It reads the variables left by an earlier
  volume, possibly one of an earlier line. When no earlier volume set them,
  the names are unbound and the run stops (`ModificationUnbound`,
  `Gp2VolumeOutcome`, `VolumesEffect`).
- **Key-pair credentials.** The key-pair branch of `authenticate` assigns
  neither `resource` nor `pricing_client`, so its `return` always raises
  `UnboundLocalError` (`Authenticate`, `UnboundLocal`). The profile branch
  has no failure of its own.

## Model

| member | source | states |
|---|---|---|
| Builtins.Strip | ebsModify.py:155 | `line.strip()`: the result is empty exactly when the line is all whitespace; otherwise it neither starts nor ends with whitespace; a line without whitespace at its ends is unchanged |
| Builtins.StripTrimsEnds | ebsModify.py:155 | `strip()` removes whitespace at the two ends only: the result is a slice of the line with nothing but whitespace before and after it; together with `Strip`, the result is the line without its leading and trailing whitespace |
| Builtins.StripNewline | ebsModify.py:154-155 | a non-empty line of text with no whitespace at either end, read with its trailing newline, strips back to that text |
| Builtins.StripIdempotent | ebsModify.py:155 | stripping a stripped hostname changes nothing |
| Builtins.NatToString | ebsModify.py:160 | `str(ec2Counter)` is a non-empty string of decimal digits without a leading zero |
| Builtins.NatToStringRoundTrip | ebsModify.py:160 | reading back the digits of `str(n)` gives `n` |
| AwsUtils.TagsToMap | src/awsutils.py:63-70 | `tags_to_map` returns the empty map when `tags` is `None`; otherwise the map built by assigning the tags in order, whose keys are exactly the tags' keys |
| AwsUtils.TagMapKeys | src/awsutils.py:67-70 | the built dictionary's key set equals the set of tag keys |
| AwsUtils.TagMapLastWins | src/awsutils.py:67-68 | for a key that occurs several times, the value of the last tag with that key is kept |
| AwsUtils.GetRegions | src/awsutils.py:96-104 | one region name per response entry, the `RegionName` of each, in response order |
| AwsUtils.CredentialPath | src/awsutils.py:10-16 | the key-pair session is chosen exactly when both the access key id and the secret are truthy, built from those two, otherwise the profile session with the given profile name (the same branch as src/awsutils.py:78-84) |
| AwsUtils.Authenticate | src/awsutils.py:6-21 | with a profile: the service resource in the given region, a pricing client in us-east-1 and the profile session; with a key pair: the run fails because `resource` is unbound |
| AwsUtils.ResolveRegion | src/awsutils.py:116-138 | a listed code resolves to its name from the table; any other code raises `KeyError` (`None`) |
| AwsUtilsFacts.ResolveRegionInjective | src/awsutils.py:117-136 | no two listed codes share a region name |
| AwsUtilsFacts.ResolveRegionExamples | src/awsutils.py:116-138 | `eu-west-1` is `EU (Ireland)`, `us-gov-west-1` and `eu-north-1` resolve; upper-cased, unknown and empty codes raise |
| Cloud.FilterByName | ebsModify.py:42-51 | an instance is in the result exactly when it is in the listing and carries the tag `Name=<hostname>`; the result is never longer than the listing |
| Cloud.FilterByNamePositions | ebsModify.py:42-51 | the filter keeps listing order and one entry per named instance: its result is the listing at strictly increasing positions, and these are exactly the positions whose instance carries the name |
| EbsModify.LevelOf | ebsModify.py:127-134 | a severity is selected exactly for the four level names INFO, WARNING, ERROR and CRITICAL, and it is the one of that name |
| EbsModify.Record | ebsModify.py:124-134 | the message is always printed first; it is logged, at the matching severity, exactly for the four known level names, and nothing else is recorded |
| EbsModifyFacts.LevelNameRoundTrip | ebsModify.py:12-15 | each severity's constant selects that severity again |
| EbsModifyFacts.RecordAtSeverity | ebsModify.py:124-134 | a message recorded at a severity's name is printed, then logged at that severity |
| EbsModify.Resolve | ebsModify.py:53-59 | the tie-break: an instance is found exactly when the filtered list is non-empty, and it is the list's last element; the warning is emitted exactly when more than one instance matches |
| EbsModify.GetEc2ByName | ebsModify.py:40-59 | `getEc2_byName` against the account computes exactly `Resolve` over the filtered listing, `pop()` included |
| EbsModifyFacts.FilterByNameLast | ebsModify.py:42-59 | the last filtered instance sits at a position of the listing after which no instance carries the name |
| EbsModifyFacts.ResolvedInstanceIsLastNamed | ebsModify.py:40-59 | `getEc2_byName` fails exactly when no instance carries the name; otherwise it returns the last named instance of the listing; it warns exactly when the filter returns more than one instance, that is, exactly when two positions of the listing carry the name |
| EbsModifyFacts.AmbiguousIffTwoNamed | ebsModify.py:42-56 | the filtered list is longer than one exactly when two different positions of the listing carry the name |
| EbsModify.SnapshotRequestFor | ebsModify.py:81-110 | the snapshot is of the descriptor's volume, of resource type `snapshot`, with description `Created for <name> - <device>` and four tags |
| EbsModify.SnapshotTagsAsMap | ebsModify.py:84-105 | the snapshot's tags are exactly Name=`gp3-convert-<volume id>`, CostCenterID=the instance's cost centre, CreatedDate=today and TTL=`20` |
| EbsModify.TakeSnap | ebsModify.py:77-121 | the snapshot request is sent first; a failure is logged CRITICAL with the volume id and error text; an id is returned exactly when `create_snapshot` itself did not fail, also when the wait failed |
| EbsModify.Gp3Convert | ebsModify.py:62-74 | the conversion request targets `gp3` for the given id; on an exception it logs CRITICAL and returns `None`, otherwise the provider's modification |
| Workflow.ConvertVolume | ebsModify.py:175-216 | one iteration of the volume loop computes exactly `VolumeStep`; `volume_list` is empty before and after it, the descriptor popped being the one just appended |
| Workflow.ConvertVolumes | ebsModify.py:175-216 | the volume loop computes exactly `Volumes`: the volumes in listing order, the modification variables carried from one to the next, stopping at the first fault; `volume_list` ends empty |
| Workflow.ProcessInstance | ebsModify.py:165-216 | the tag lookups and the volume loop of one instance compute exactly `InstanceStep` |
| Workflow.ProcessHost | ebsModify.py:160-216 | the work on one hostname computes exactly `HostStep` |
| Workflow.ProcessLine | ebsModify.py:155-216 | one line of the file loop computes exactly `LineStep` |
| Workflow.RunJob | ebsModify.py:149-219 | `main` from the `[STARTING]` message on computes exactly `Job` |
| WorkflowFacts.Requests | ebsModify.py:81 | the projection of a trace onto what is sent to the provider holds only snapshot and conversion requests |
| WorkflowFacts.RequestsMembers | ebsModify.py:81 | no request is dropped by the projection: an event is among the requests exactly when it is in the trace and is a snapshot or conversion request |
| WorkflowFacts.RequestsAppend | ebsModify.py:152-216 | the requests of two traces one after the other are the requests of each, in order |
| WorkflowFacts.RequestsOfRecord | ebsModify.py:124-134 | printing and logging send nothing to the provider |
| WorkflowFacts.TakeSnapRequests | ebsModify.py:77-121 | `take_snap` sends exactly one request, the snapshot request, whatever the outcome |
| WorkflowFacts.Gp3ConvertRequests | ebsModify.py:62-74 | `gp3_convert` sends exactly one request, the gp3 conversion, whatever the outcome |
| WorkflowFacts.VolumeStepRequests | ebsModify.py:177-216 | a volume that is not gp2 sends nothing; an attached gp2 volume sends its snapshot request, then a gp3 conversion exactly when the snapshot id is non-empty |
| WorkflowFacts.VolumesRequests | ebsModify.py:175-216 | the volume loop sends the requests of the volumes it gets through, in listing order, all of them when no fault stops it |
| WorkflowFacts.VolumesRequestOrder | ebsModify.py:175-216 | without a fault, the volumes' requests come in listing order, each volume's one after the other |
| WorkflowFacts.InstanceStepRequests | ebsModify.py:165-216 | an instance with a missing tag sends nothing and faults; otherwise it sends the requests of the volumes the loop gets through |
| WorkflowFacts.HostStepRequests | ebsModify.py:160-165 | the work on a hostname sends only what its instance's volumes send, and nothing when no instance is found |
| WorkflowFacts.SafeAppend | ebsModify.py:152-216 | two safe request sequences one after the other are safe |
| WorkflowFacts.VolumeRequestsSafe | ebsModify.py:177-210 | the requests of a volume of an instance of the account name a gp2 volume of that instance, carry the four snapshot tags and convert to gp3 right after that volume's snapshot |
| WorkflowFacts.AllVolumeRequestsSafe | ebsModify.py:175-216 | so are the requests of any list of that instance's volumes |
| WorkflowFacts.InstanceStepSafe | ebsModify.py:165-216 | so is what one instance's iteration sends, faults included |
| WorkflowFacts.HostStepSafe | ebsModify.py:160-216 | so is what the work on one hostname sends |
| WorkflowFacts.LineStepSafe | ebsModify.py:155-216 | one line keeps the requests sent so far safe |
| WorkflowFacts.LinesSafe | ebsModify.py:152-216 | the line loop keeps the requests sent so far safe |
| WorkflowFacts.JobRequestsSafe | ebsModify.py:149-219 | over a whole run, faults included, every request names a gp2 volume of an instance of the account; each snapshot carries exactly the four tags with that instance's cost centre; each conversion targets gp3 and comes right after the snapshot request for the same volume |
| WorkflowFacts.VolumeStepEffect | ebsModify.py:177-216 | `VolumeStep`, one iteration of the volume loop: a fault it raises is a volume fault naming this volume; the modification variables are unchanged unless this volume's conversion succeeded, in which case they hold its response |
| WorkflowFacts.VolumesEffect | ebsModify.py:175-216 | `Volumes`, the volume loop: a fault is a volume fault naming one of the volumes; the modification variables afterwards are those it was given or the response of one of the volumes' conversions; once bound, they stay bound |
| WorkflowFacts.InstanceStepEffect | ebsModify.py:165-216 | `InstanceStep`, the work on one instance: it faults with `MissingTag` exactly when the `Name` or `CostCenterID` tag is missing, never with `InstanceNotFound`, and bound modification variables stay bound |
| WorkflowFacts.HostStepEffect | ebsModify.py:159-216 | `HostStep`, the work on one hostname: it faults with `InstanceNotFound` exactly when the filter finds no instance, and the fault names that hostname |
| WorkflowFacts.LineStepEffect | ebsModify.py:154-216 | `LineStep`, one line: the counter grows by one exactly when the line is not blank; the trace is only appended to; bound modification variables stay bound, also across lines |
| WorkflowFacts.LinesEffect | ebsModify.py:152-216 | `Lines`, the line loop: once a fault is recorded nothing changes; otherwise the counter only grows, the trace is only appended to, and bound modification variables stay bound |
| WorkflowFacts.JobOpens | ebsModify.py:149-150 | `Job`, the whole run: every run, faulting or not, opens with the `[STARTING]` message printed and logged at INFO |
| WorkflowFacts.InstanceTagsLookup | ebsModify.py:165-171 | `tags[key]` on the instance's tag dictionary succeeds exactly when one of its tags has that key, and yields the value of the last such tag |
| WorkflowFacts.BlankLineSkipped | ebsModify.py:155-157 | a line that is blank once stripped changes nothing, counter included |
| WorkflowFacts.HostStepOpens | ebsModify.py:159-161 | the work on a hostname opens with the processing message carrying the count, printed and logged at INFO |
| WorkflowFacts.HostLineCountedOnce | ebsModify.py:154-161 | any other line increments the counter exactly once and is used, stripped, as the hostname of the first message after what was recorded before |
| WorkflowFacts.HostLineNotFound | ebsModify.py:164 | a line stops the run with `InstanceNotFound` for its hostname exactly when no instance carries that name |
| WorkflowFacts.CounterCountsHostnames | ebsModify.py:153-161 | without a fault, the counter ends at the number of non-blank lines |
| WorkflowFacts.OutOfScopeVolumeOnlyLogged | ebsModify.py:214-216 | a volume that is not gp2 gets one INFO "not an in-scope volume_type" message and nothing else: no request, no change of the modification variables |
| WorkflowFacts.Gp2VolumeOutcome | ebsModify.py:177-210 | how a gp2 volume ends, case by case: no attachment, a failed `create_snapshot` or a failed conversion ends the run; a conversion logs its modification last; an empty snapshot id logs the stale modification or ends the run when there is none |
| WorkflowFacts.UnknownHostEndsRun | ebsModify.py:154-164 | an unknown hostname ends the whole run, and the lines after it are never read |
| WorkflowFacts.JobEnding | ebsModify.py:149-219 | a run that faults has no `[ENDING]` message; one that does not ends with it, printed and logged at INFO |
| Scenarios.StripExamples | ebsModify.py:155 | `host-a\n` and `host-b\n` strip to their hostnames |
| Scenarios.FilterExamples | ebsModify.py:42-51 | the `tag:Name` filter of a one-instance account |
| Scenarios.HostAThenUnknownHostB | ebsModify.py:152-216 | a line for a host with one attached gp2 volume, then one for an unknown host: the volume is snapshotted and converted, then the run stops at the second line with its processing message last |
| Scenarios.HostCOutOfScope | ebsModify.py:152-216 | a line for a host whose only volume is gp3: the counter moves once, the tags are reported, one out-of-scope message follows, and nothing is sent |

## Left out

- The boto3 calls are represented only by their outcomes, carried on each
  `Volume`. These are `create_snapshot`, `wait_until_completed`,
  `modify_volume`, `describe_regions`, STS, and the construction of
  `Session`, `resource` and `client`. The unbounded blocking wait inside
  `take_snap` is a provider-side timing matter and is not modelled.
- `getEC2Objects`, `getSTSClient`, `get_account_number` and `getEc2_byId` are
  SDK wrappers. The account number and the instance listing are inputs.
- `argument_parser` (`src/utils.py`) is command-line plumbing, and
  src/utils.py is not part of this model. The input file is given as the
  sequence of its lines, newlines included.
- Logging configuration, the log file's name, the logger's timestamps, file
  opening and `print` itself are left out. Each printed or logged message is
  an event. The current date (`today`) and the two timestamps for the
  `[STARTING]` and `[ENDING]` messages are parameters.
- `Job`, `RunJob`, `JobRequestsSafe`: `today` is one value for the whole run.
  The source calls `date.today()` in every `take_snap` (ebsModify.py:98), and
  `wait_until_completed` blocks on each snapshot, so in a run that crosses
  midnight the later snapshots get a later `CreatedDate`. The model's
  promise that every snapshot of a run carries the same `CreatedDate` holds
  only with a clock that does not move during the run.
- The first `get_regions(creds, service)` (src/awsutils.py:74) is replaced by
  the second definition at src/awsutils.py:96 when the module loads, so it is
  never callable. Its credential branch is `CredentialPath`, and its response
  loop is the same as `GetRegions`.
- A `modify_volume` response without a `VolumeModification` entry, or with
  missing keys, is not modelled. A response is either an exception or a full
  `Modification`.
- `FilterByName` matches the `tag:Name` filter value as an exact string. The
  provider reads `*` and `?` in a filter value as wildcards, so a hostname
  line such as `web-*` would match every `web-...` instance. `Resolve`,
  `HostLineNotFound`, `ResolvedInstanceIsLastNamed` and the hostname lookup
  hold for exact matching only.
- The `Account` does not change while the job runs, and each volume carries
  one fixed answer for its snapshot and one for its conversion. A volume met
  twice gets the same answers the second time. This happens when a hostname
  is repeated in the file, or when a volume is attached to two listed
  instances. On the provider the second pass can differ: the volume may
  already report `gp3`, and a volume modified within the last six hours
  cannot be modified again.
- The `tags` of an instance, volume sizes and creation times are taken as
  already-converted strings and numbers. `str()` of a datetime is not
  modelled.
- `Strip` uses the whitespace set of `str.isspace()` on single characters.
  Strings are sequences of characters without Unicode normalisation.
- Scenarios.HostAThenUnknownHostB: stated for the line loop from any state
  that has not faulted, and for any account whose filter gives the same
  instances. It is not stated for `Job` on one literal account. `JobEnding`
  and `JobRequestsSafe` cover the opening and the ending of a run in general.
- Scenarios.HostCOutOfScope: stated for the line loop in the same way, not
  for `Job`.
