# Verification model of the EVS CSI driver

This project models the parts of the driver whose behaviour ranges over whole runs, and proves what
they promise. The cloud and the host are adversaries: every answer, failure and delay is chosen by a
script that the theorems quantify over. What the code changes step by step is modelled by methods and
classes that are proved against specifications; the properties of those specifications are lemmas.

| file | part of the system |
|---|---|
| `HostState.dfy`, `Host.dfy`, `MountOptions.dfy`, `MountArgs.dfy` | the mount engine over a host whose commands may fail, be killed, or fail after taking effect, and which other calls may change between any two steps |
| `ReadOnly.dfy` | when a bind is read-only once its options are joined by commas |
| `Node.dfy` | stage, publish, unpublish and unstage, single calls and whole runs |
| `Interleaving.dfy` | calls of the node service whose host steps interleave, and exactly when that is unsafe |
| `Attachment.dfy` | attach and detach against a cloud that refuses, loses and delays answers, with nested deadlines |
| `Volumes.dfy`, `Provisioning.dfy`, `Capacity.dfy` | paged listing, adoption, guarded deletion, CreateVolume runs, int64 capacity arithmetic |
| `Redaction.dfy`, `Masking.dfy` | credential masking inside a text, and of a byte stream cut into writes |
| `Reclaim.dfy` | ledger reclamation and the write-ahead discipline it depends on |
| `Outcome.dfy`, `Report.dfy` | reconciling a run's records, the verdict, and the report's findings |
| `Errors.dfy`, `Ordering.dfy`, `Sequences.dfy`, `Text.dfy` | error kinds and contexts, sorting, sequences, substring arithmetic |

Check everything with `dafny verify dfyconfig.toml`.

## Results

- Node service. `Node.Run`: over every run of calls made one after another, with any host step failing,
  killed or failing after it took effect, no path carries two mounts at any moment, no formatted device
  is run through mkfs, no path is removed while mounted, and nothing outside the calls' own paths changes.
  `Node.Serve`: whatever other calls do to the host between any two of its steps, a call formats only a
  device it was told is blank, mounts on or removes only a path it was told is unmounted, was told the
  truth at each step, and changes nothing but its own path and the device it stages.
  `Interleaving.SafeRunIff`: an interleaving of such calls is safe throughout exactly when no call formats
  a device that another formatted since the first saw it blank, and none mounts on or removes a path that
  another mounted on since the first was told it is unmounted. `Interleaving.ApartCallsAreSafe`: so it is
  enough that calls which overlap are about different paths and devices. `Node.Lifecycle`: stagings,
  publications, unpublications and unstagings, repeated at will, restore mount table and paths once the
  last unpublication and the last unstaging succeed. Each of the four calls must succeed, run alone, when
  the host steps it needs go well and the request and the device allow it, repeated calls included.
- Bind mounts, for a call that runs alone. `Host.Host.Mount`: success leaves the full option set, also
  from a half-done bind. A failure leaves a free target free, whatever became of the caller's context,
  unless a host step of the rollback itself failed or outlasted its bound; where the rollback begins is a
  function of the script.
- Attachment. One effect call at most and none for a listed pair; success only on a listing that shows
  it (and, with honest listings, only while the volume is on exactly that server); a failure under an
  ended context reports the cause. An attach that is accepted, whose job succeeds and that settles in
  time returns the attachment (`Attachment.Cloud.AttachVolume`), and one issued again after an accepted
  one that ended in any other way returns it too (`Attachment.AttachAgain`). A detach that is accepted
  succeeds in time whether its job succeeds, its answer is lost, or it is denied while the volume record
  shows it under way (`Attachment.Cloud.DetachVolume`). A job that fails ends either call at the poll that
  says so.
- Provisioning. At most one volume per name over any run (`Provisioning.ProvisionRun`); what is adopted
  suits the request in bytes, and whatever suits is adopted (`Provisioning.CreateVolume`). A deletion
  issues at most one DELETE, succeeds exactly when the cloud said not-found, and goes on reading until
  something decides (`Provisioning.DeleteVolume`).
- Masking. Redaction reaches a normal form by starring nothing but values of the 28 keys, its fixed
  points are exactly the texts in that form, and no known secret survives any cutting of the stream onto
  a sink that refuses whichever writes it likes (`Masking.WriteMasked`); what such a sink keeps is known
  exactly (`Masking.ReceivedIs`). A line changes only where a secret or the value of a sensitive key stands
  (`Masking.LineIsMasked`, `Masking.CleanLinePasses`).
- Reclamation. A teardown without failures deletes every volume of a disciplined run, wherever the run
  was cut off (`Reclaim.TeardownRun`); one with failures still visits everything it can resolve
  (`Reclaim.Teardown`).
- Verdict. `Outcome.Judge` characterizes the verdict of a reconciled run; `Report.ReportAgrees` shows
  that the report's own copy of the coherence rule never disagrees with it.

Six expectations are false of the code. Each has a lemma with an input that shows it and one that says
when the code does meet it.

- A read-only publication is writable when its mount flags carry `rw` and its source is writable, and
  when a flag with commas carries it, such as `nosuid,rw`, even over a read-only source
  (`ReadOnly.ReadOnlyPublishOverridden`, `ReadOnly.CommaOverrides`, `ReadOnly.ReadOnlyPublish`).
- The capacity reported for a volume adopted without a limit is wrong from 2^33 GiB on
  (`Capacity.AdoptedCapacityWraps`, `Capacity.AdoptedWithoutLimit`).
- A listing endpoint that answers not-found makes CreateVolume duplicate an existing volume
  (`Provisioning.NotFoundListing`, `Provisioning.DuplicateIffNotFound`).
- Two identifier lines for one creation hide another creation under the same name
  (`Reclaim.DoubleIdentificationLeaks`, `Reclaim.UnobservedIffShort`).
- Of two unknown states recorded for one check, the first is kept, so the state kept depends on the
  order (`Outcome.UnknownStatesDependOnOrder`, `Outcome.KeptOrderFreeIff`).
- Serializing calls per path alone does not keep a formatted device from mkfs: two stagings of one blank
  device at different paths can both find it blank. An mkfs meets a formatted device exactly when another
  call formatted it after this call saw it blank (`Interleaving.OneDeviceTwoPaths`,
  `Interleaving.UnsafeFormatIff`).

## Assumptions

- Calls interleave step by step: a command, or a reading of the mount table, is one step, and before each
  step of a call the others may have left the host in any state. What the contracts of `Host.dfy` and
  `Node.dfy` say about the host's state they say of a call that runs alone (`Alone`); the discipline of its
  account they say of every call. Neither the check for a mount and the mount, nor the detection of a
  filesystem and mkfs, are atomic.
- Detection is faithful when it answers: blkid and lsblk report the true type, exit status 2 of blkid
  means an unformatted device, the mount table is read correctly or not at all, and umount says "not
  mounted" only of an unmounted path. The mount flags of a source do not change during a run.
- mount splits its options at commas and applies the last of conflicting ones; what `ReadOnly.dfy` proves
  holds for every list of options. A remount changes options in place. In `Host.dfy` and `Node.dfy` the
  options of a mount are the list it was given, as if no option held a comma.
- A request is cut when its context ends, and an answer that would arrive at that very instant counts as
  cut. Time is counted in poll intervals of one second.
- The cloud accepts an attach only for an unattached volume and a detach only for one attached to the
  server named; what it accepted settles at a time the script chooses. Honest listings show settled
  attachments only; theorems that need honest listings say so.

## Model

| member | source | states |
|---|---|---|
| Host.Host.IsMountPoint | internal/mount/mount.go:709-729 | an answer is the truth about the mount table; it errs only for an empty path, an ended context or a failed read |
| Host.Host.GetFilesystemType | internal/mount/mount.go:303-338 | an answer is the type the device holds, and there is one when blkid answers; an error is the cause under an ended context, else both tools failed |
| Host.Host.Format | internal/mount/mount.go:423-450 | starts at most one mkfs on the device and changes nothing but its type; cancellation is the cause |
| Host.Host.CheckFilesystem | internal/mount/mount.go:455-473 | starts at most one fsck; tolerates all but uncorrected errors and cancellation |
| Host.Host.RunMount | internal/mount/mount.go:599-629 | the mount table is unchanged or changed as the reference semantics say, and success means changed; errors are the cause or a mount failure |
| Host.Host.RemountBind | internal/mount/mount.go:534-568 | the mount at the target ends up with exactly the remount options of its source and the request, or nothing changes |
| Host.Host.Unmount | internal/mount/mount.go:668-704 | success means the target is unmounted; an error has a failed or slow host step or an ended context behind it; it must succeed when each of its one or two steps does |
| Host.Host.RollBackBind | internal/mount/mount.go:572-577 | runs whatever became of the caller's context; failing to unmount needs a failed step or one that outlasts the bound |
| Host.Host.BindMount | internal/mount/mount.go:505-528 | success: one mount with the full option set; failure with effect-free failures: the target is free unless a step of the rollback failed or outlasted its bound; it must succeed when its three steps do |
| Host.Host.Mount | internal/mount/mount.go:634-665 | a free or half-done target that is bound with success carries the full option set; a failed bind leaves a free target free unless a step of the rollback, which begins where the script says, failed or outlasted its bound; when its steps go well, a mounted target and anything but a plain remount must succeed |
| Host.Host.Prepare | internal/mount/mount.go:385-416 | mkfs only for a blank device, fsck only for a formatted one mounted read-write, mismatch exactly for another type; success leaves the requested type; when its steps go well these are the only failures, and uncorrected fsck errors fail it |
| Host.Host.FormatAndMount | internal/mount/mount.go:344-419 | the commands started are a prefix of the plan for the initial state and all of it on success; success mounts a free target with the requested type and options and returns a mounted one as it is; a failure with effect-free failures leaves a free target unmounted; when every step it needs goes well, a mounted target, a device of the requested type and a blank writable one must succeed, and another type or a blank read-only device must fail as such; uncorrected fsck errors fail it |
| Host.PlanIsSafe | internal/mount/mount.go:377-416 | no plan, run to whatever point, formats a formatted device, checks a blank one or stacks a mount |
| Host.RemountStep | internal/mount/mounttest/mounttest.go:36-48 | a remount changes the options of the one mount in place and needs one to change |
| Node.NodeService.NodeStageVolume | internal/driver/node.go:110-181 | keeps one mount per path and all formatted types; block staging runs no command and only makes the directory; success leaves the staging path mounted, as requested when this call mounts it and as it was otherwise; a repeated or first staging whose steps go well must succeed when the device allows it; invalid requests, missing devices and fsck errors have their codes |
| Node.NodeService.NodePublishVolume | internal/driver/node.go:215-320 | never formats; success needs a staged filesystem volume, and leaves the full bind options at the target; a failure leaves a free target free unless a step of the rollback failed or outlasted its bound; a first or repeated publication of something staged whose steps go well must succeed, and one of nothing staged fails as such |
| Node.NodeService.NodeUnpublishVolume | internal/driver/node.go:323-351 | success leaves the target unmounted and absent; it is removed only when unmounted; it must succeed when its steps go well |
| Node.NodeService.NodeUnstageVolume | internal/driver/node.go:184-212 | success leaves the staging path unmounted and absent; it is removed only when unmounted; it must succeed when its steps go well |
| Node.Run | internal/driver/node.go:110-351 | safety over every run of calls one after another, with any failures; a block-only run formats nothing; the accounts of the calls make an honest run to the final state |
| Node.LawfulRunStep | internal/driver/node.go:110-351 | one more lawful call extends a lawful run |
| Node.Serve | internal/driver/node.go:110-351 | whatever others do between its steps, a call leaves a disciplined account of true observations whose effects are on its own path and, for a staging, its device; alone, the account explains the state and nothing but the call's own path changes in the table |
| Interleaving.HonestIffSincere | internal/driver/node.go:110-351 | a run is honest exactly when each call's part of it is an account such as `Node.Serve` leaves |
| Interleaving.HonestGrows | internal/driver/node.go:110-351 | an honest run followed by a call that runs alone is honest and leads to the state the call leaves |
| Interleaving.SafeRunIff | internal/driver/node.go:110-351 | an honest run is safe throughout exactly when no step acts on something another call formatted or mounted since its own call learned of it |
| Interleaving.UnsafeFormatIff | internal/mount/mount.go:385-411 | an mkfs meets a formatted device exactly when another call formatted it after this one saw it blank, serialized or not |
| Interleaving.UnsafePathIff | internal/mount/mount.go:377-418 | a mount or removal meets a mounted path exactly when another call mounted on it after this one was told it is unmounted, and nobody unmounted it since |
| Interleaving.ChecksAreSafe | internal/mount/mount.go:412-416 | no fsck ever meets a blank device, serialized or not |
| Interleaving.ApartCallsAreSafe | internal/driver/node.go:110-351 | however the steps of calls interleave, they are safe when calls that overlap are about different paths and devices: one mount per path, types kept |
| Interleaving.InterleavedCallsAreSafe | internal/driver/node.go:110-351 | any interleaving of host steps in which calls about one path and calls about one device are serialized: no unsafe step, one mount per path, types kept |
| Interleaving.StepIsSafe | internal/mount/mount.go:377-418 | a step its call is permitted to take is safe in the state it meets |
| Interleaving.FreeIsTrue | internal/mount/mount.go:377-383 | a path a call was told is unmounted still is when the call acts on it |
| Interleaving.TypeIsTrue | internal/mount/mount.go:385-416 | a device a call was told is blank still is when the call formats it |
| Interleaving.OneDeviceTwoPaths | internal/mount/mount.go:385-411 | with calls serialized per path only, the second of two stagings of one device formats a formatted device |
| Node.PublishAll | internal/driver/node.go:302-315 | each success among repeated publications leaves the same single mount with the same options |
| Node.Restored | internal/driver/node.go:200-209 | changes confined to staging and target path, both gone at the end, leave the table as it was |
| Node.Lifecycle | internal/driver/node.go:110-351 | stage, publish, unpublish, unstage, each repeated and free to fail, restore mount table and paths once teardown succeeds |
| Node.ReadOnlyPublication | internal/driver/node.go:252-306 | what a read-only publication leaves is read-only exactly when every rw in its mount flags is overruled; for flags without commas, when its source is read-only or no flag is rw |
| MountOptions.SourceMountOptions | internal/mount/mount.go:580-594 | the options of the flags set, in table order |
| MountOptions.SourceReadOnly | internal/mount/mount.go:79-91 | a source is restated ro exactly when its flag is set, and never rw |
| MountOptions.SourceFlags | internal/mount/mount.go:79-91 | which flag brings which other option back |
| MountOptions.BuildRemountOptions | internal/mount/mount.go:549-565 | the loop computes the specified list |
| MountOptions.RemountShape | internal/mount/mount.go:551-565 | bind,remount, then exactly the admissible options in order of first occurrence, none twice, no rw over a read-only source |
| MountOptions.RemountFixedPoint | internal/mount/mount.go:530-565 | the list fed back as the request reproduces itself |
| ReadOnly.RemountReadOnly | internal/mount/mount.go:549-565 | with an ro listed, the joined list is read-only exactly when every rw in it is overruled by a later option |
| ReadOnly.ReadOnlySource | internal/mount/mount.go:549-561 | over a read-only source the list has ro and no rw of its own, and is read-only exactly when every rw inside a longer option is overruled, always when no option holds a comma |
| MountOptions.BuildPublishOptions | internal/driver/node.go:253-307 | the loop computes the specified list |
| MountOptions.ExtraFlagsInOrder | internal/driver/node.go:303-307 | the flags are handed on one by one, in place |
| MountOptions.ExtraFlagsCounted | internal/driver/node.go:303-307 | and as often as given, but for bind and ro |
| ReadOnly.ReadOnlyPublish | internal/driver/node.go:303-307 | a read-only publication is read-only exactly when every rw in its flags, commas and all, is overruled by a later flag |
| ReadOnly.PlainReadOnlyPublish | internal/driver/node.go:303-307 | for flags without commas: exactly when the source is read-only or no flag is rw |
| ReadOnly.ReadOnlyPublishOverridden | internal/driver/node.go:303-306 | flag rw over a writable source makes it writable |
| ReadOnly.CommaOverrides | internal/mount/mount.go:604-611 | flag "nosuid,rw" makes it writable over every source |
| ReadOnly.JoinedWord | internal/mount/mount.go:609 | the last ro or rw of a joined list is that of the last option that says either |
| MountArgs.BuildMountArgs | internal/mount/mount.go:604-611 | the argument vector of a mount |
| MountArgs.ParseMountArgs | internal/mount/mounttest/mounttest.go:61-79 | last two arguments are source and target, the others are scanned pairwise; shorter input gives empty values |
| MountArgs.SplitJoin | internal/mount/mount.go:609 | splitting joined comma-free options restores them |
| MountArgs.ScanInverts | internal/mount/mounttest/mounttest.go:66-76 | scanning a built vector recovers type and options, whatever they look like |
| MountArgs.RoundTrip | internal/mount/mounttest/mounttest.go:59-79 | parse inverts build for every source, target, type and comma-free option list |
| Attachment.Cloud.ObserveAttachment | internal/evs/attachment.go:161-188 | the first matching row of the listing, with its device trimmed |
| Attachment.FirstMatchIs | internal/evs/attachment.go:174-187 | no row of the pair is listed, or the answer is the first one's device |
| Attachment.Cloud.WaitForAttachmentState | internal/evs/attachment.go:437-465 | success only on a listing just heard; ends by the deadline; fails with the cause or a non-transient error; must succeed for an accepted attach that settles in time, and for a volume that is off the server; a first listing that settles it ends it at once, and so does a listing that fails for good after any number of transient failures |
| Attachment.Cloud.WaitForAttachmentJob | internal/evs/attachment.go:396-434 | success only on a job that said SUCCESS before anything decisive; every poll before the last was indecisive; ends by the deadline with the cause; after any number of polls that say nothing, FAIL or a lasting error ends it at that poll |
| Attachment.Cloud.AttachInFlight | internal/evs/attachment.go:206-233 | what the volume record says about the requested attach |
| Attachment.Cloud.DetachInFlight | internal/evs/attachment.go:306-330 | whether the volume record shows the volume moving or still attached |
| Attachment.Cloud.ReconcileRefused | internal/evs/attachment.go:235-245 | ends by the earlier of the operation deadline and 90 ticks |
| Attachment.Cloud.FinishAttachAfterEffectError | internal/evs/attachment.go:250-301 | a reconciled failure under an ended context is the cause, otherwise the effect error or a conflict; a refusal ends within the probe and 90 ticks; other errors stand at once |
| Attachment.Cloud.FinishRefusedAttach | internal/evs/attachment.go:275-300 | a record that shows nothing returns the refusal, one that names another server a conflict, both without waiting |
| Attachment.Cloud.FinishDetachAfterEffectError | internal/evs/attachment.go:348-392 | the same for a detach; must succeed for one that was accepted when the failure is transient, or a refusal while the detach is under way |
| Attachment.Cloud.FollowAttach | internal/evs/attachment.go:78-97 | success needs a job that said SUCCESS before anything decisive, or a blank job, and a listing; a failure is the cause under an ended context, else the failed job's or poll's error |
| Attachment.Cloud.FollowDetach | internal/evs/attachment.go:122-141 | the same for a detach |
| Attachment.Cloud.AttachVolume | internal/evs/attachment.go:42-98 | one attach call exactly when the first listing shows no such pair, else none; success only on a listing that shows the device; a failure is the cause under an ended context, else that of the first listing, the wait, the effect, or the job and what follows it; at most one attach accepted; must succeed for an accepted attach in reach, and for a fresh one that is accepted, whose job succeeds and that settles in time; a pair listed with a device is returned after that one listing; a job that fails ends it at the poll that says so |
| Attachment.Cloud.DetachVolume | internal/evs/attachment.go:101-142 | one detach call exactly when the first listing shows the pair; success only on a listing without it; a failure is the cause under an ended context, else that of the listing, the effect, or the job and what follows it; must succeed in time for an attached volume whose detach is accepted, when its job succeeds, its answer is transient, or it is denied while under way; a job that fails ends it at the poll that says so |
| Attachment.Cloud.ObservedInTime | internal/evs/attachment.go:203-205 | an accepted attach is seen by the first observation after it settled |
| Attachment.SeenIsAttached | internal/evs/attachment.go:144-146 | with honest listings a successful attach coincides with the volume on that server, with that device |
| Attachment.SeenIsAbsent | internal/evs/attachment.go:148-150 | with honest listings a successful detach coincides with the volume not on that server |
| Attachment.Run | internal/evs/attachment.go:42-142 | the same for every call of a run while others change the volume at will; calls never repeat an effect |
| Attachment.AttachAgain | internal/evs/attachment.go:54-98 | an attach issued again after one accepted, however that one ended, returns it when it settles within the window counted from the second call; one attach accepted in all |
| Volumes.ListVolumes | internal/evs/volume.go:238-268 | exactly the list when no request fails and it spans at most 50 non-empty pages, else the failure |
| Volumes.PageBounds | internal/evs/volume.go:238-268 | 50 volumes always fit, more than 5000 never |
| Volumes.FullPages | internal/evs/volume.go:238-268 | full pages: the bound is met exactly up to 5000 volumes |
| Volumes.ListingLimits | internal/evs/volume.go:238-268 | full pages complete exactly up to 5000 volumes, any pages up to 50, none beyond 5000 |
| Volumes.DiscoverVolume | internal/evs/volume.go:300-340 | a complete listing gives the least-id adoptable volume of the name, not-found exactly when no volume has the name, else a conflict |
| Volumes.DiscoveryDetermined | internal/evs/volume.go:324-339 | with unique ids the answer depends on neither listing order nor page boundaries |
| Volumes.DeletionSession.WaitForVolumeAbsence | internal/evs/volume.go:411-458 | at most 60 reads; on exhaustion "still present" exactly when some read saw the volume, else the last transient error; the reads are those of the script, two ticks apart, and only the end of the context cuts them short |
| Volumes.Tells | internal/evs/volume.go:419-435 | the first read that tells something ends the wait with its answer |
| Volumes.GivesUp | internal/evs/volume.go:436-457 | 60 reads that tell nothing end it: still present when one showed the volume, else the last error |
| Volumes.CutShort | internal/evs/volume.go:440-445 | the end of the context before a read ends it with the cause |
| Volumes.DeletionSession.DeleteVolume | internal/evs/volume.go:369-407 | everything a deletion can do, read by read |
| Volumes.DeletesOnce | internal/evs/volume.go:383-401 | a DELETE is the second event at most, after a read that showed the marker and a deletable status |
| Volumes.NotFoundMeansGone | internal/evs/volume.go:376-407 | it ends gone or not-found exactly when some answer was not-found |
| Provisioning.CreateVolume | internal/driver/controller.go:189-282 | out-of-range for a valid request no size can meet and invalid-argument for the others refused; over a complete listing a volume of the name that suits the request in tag, status, zone, type and bytes is adopted when there is one, and a name taken by others is a conflict; the response reports identifier, zone and, below 2^33 GiB or under a limit, the bytes, in range; its one create call is made exactly when the discovery ended in not-found |
| Provisioning.AdoptableIffSuits | internal/evs/volume.go:343-363 | the adoption test in GiB admits exactly the volumes whose size in bytes lies in the requested range |
| Provisioning.FindsWhatSuits | internal/evs/volume.go:300-340 | the discovery finds a volume that suits exactly when there is one |
| Provisioning.ResponseReports | internal/driver/controller.go:516-530 | identifier, zone and bytes of a response are those of the volume |
| Provisioning.ProvisionRun | internal/driver/controller.go:242-281 | at most one volume of a name over any run with lost create answers |
| Provisioning.CallKeeps | internal/driver/controller.go:256-281 | one call keeps that invariant |
| Provisioning.RepeatCreate | internal/driver/controller.go:242-255 | a repeated request returns the usable volume without a create call |
| Provisioning.OnlyChoice | internal/evs/volume.go:324-363 | the discovery has no other volume to return |
| Provisioning.StampedIsAdoptable | internal/evs/volume.go:343-363 | a volume made for a request is adoptable by it exactly once it is available or in use |
| Provisioning.DuplicateIffNotFound | internal/driver/controller.go:256-260 | an existing name is duplicated exactly when the listing endpoint answered not-found |
| Provisioning.NotFoundListing | internal/evs/volume.go:285-287 | the first page request can answer so |
| Provisioning.DeleteVolume | internal/driver/controller.go:285-325 | OK exactly when the cloud answered not-found in this call; a live call reads once, refuses what is not owned or failed to delete, deletes once unless that is under way, and then reads until something decides, 60 reads are made or the context ends, each with its code; at most 62 requests |
| Capacity.ResolveIsLeast | internal/driver/controller.go:447-479 | the least size that meets the request on wrapping int64, with exact failure conditions |
| Capacity.LimitIsExact | internal/driver/controller.go:483-490 | a bounded request that passed is never read as unlimited; the bound in GiB admits exactly what the bound in bytes does |
| Capacity.AdoptedWithinLimit | internal/driver/controller.go:516-530 | under a limit the reported capacity of an adopted volume is in range |
| Capacity.AdoptedWithoutLimit | internal/driver/controller.go:516-530 | without one it is right exactly below 2^33 GiB |
| Capacity.AdoptedCapacityWraps | internal/driver/controller.go:519 | 2^33 GiB reports a negative capacity |
| Redaction.ValueBounds | internal/log/logger.go:142-153 | the value after a key: past quotes and spaces, up to the next delimiter |
| Redaction.MaskKeyValues | internal/log/logger.go:115-139 | the loop rewrites the text it scans and ends, computing the specified masking |
| Redaction.MaskNormal | internal/log/logger.go:115-139 | a pass brings the text into normal form for its prefix |
| Redaction.ReducesNormal | internal/log/logger.go:105-109 | no later pass undoes the normal form of an earlier prefix |
| Redaction.RedactString | internal/log/logger.go:99-111 | the nested loops compute the specified redaction |
| Redaction.RedactNormal | internal/log/logger.go:98-139 | in the output every name-starting key and separator has an empty value or exactly three stars |
| Redaction.RedactHides | internal/log/logger.go:98-159 | behind a byte that is neither letter nor digit, a key and separator has no value or three stars |
| Redaction.RedactFixedPoint | internal/log/logger.go:98-139 | a text is left alone exactly when it is in that form |
| Redaction.RedactIdempotent | internal/log/logger.go:98-139 | redacting twice is redacting once |
| Redaction.RedactReduces | internal/log/logger.go:99-139 | each change stars the value that follows one of the 28 keys and separators where it starts a name, and nothing else |
| Redaction.RedactTokens | internal/log/logger.go:130-133 | delimiters stay, and a token changes only by turning an end of it into stars |
| Redaction.RedactContains | internal/log/logger.go:98-139 | star-free text in the output was in the input |
| Masking.MaskLine | test/e2e/report/report.go:100-105 | the loop computes the specified masking of a line: its secrets are starred, longest first, then the values of sensitive keys, and nothing else changes; a clean line is left alone |
| Masking.LineIsMasked | test/e2e/report/report.go:91-105 | the masked line arises from the line by starring the secrets, longest first, each at its occurrences from the left, and then by steps of redaction |
| Masking.StarredOnce | test/e2e/report/report.go:101-103 | starring a secret determines the text |
| Masking.CleanLinePasses | test/e2e/report/report.go:91-105 | a line with no secret and no unmasked key passes unchanged; when no secret holds a star, only such a line does |
| Masking.CleanStreamPasses | test/e2e/report/report.go:57-87 | so does a stream of such lines |
| Masking.MaskedLineContains | test/e2e/report/report.go:91-105 | star-free text in a masked line was in the line and is no secret |
| Masking.SecretAlone | test/e2e/report/report.go:94-99 | longest first: a line that is one secret becomes three stars |
| Masking.LinesConcat | test/e2e/report/report.go:61-68 | a stream that arrives in two pieces has the same lines |
| Masking.MaskingWriter.Write | test/e2e/report/report.go:57-73 | emits the masked complete lines and holds the remainder; the first write the sink refuses loses its line, ends the call and keeps the rest |
| Masking.MaskingWriter.Flush | test/e2e/report/report.go:76-87 | emits the masked remainder once |
| Masking.WriteAll | test/e2e/report/report.go:57-87 | what any sink keeps of any cutting of a stream; one that refuses nothing receives the mask applied line by line |
| Masking.ReceivedIs | test/e2e/report/report.go:57-87 | a sink keeps the masks of a first part of the lines, but for those refused, and in one last write the mask of all the rest |
| Masking.NothingLost | test/e2e/report/report.go:57-87 | a sink that refuses nothing receives the mask of the whole stream |
| Masking.HiddenInReceived | test/e2e/report/report.go:57-87 | losing lines brings no hidden text out |
| Masking.HiddenInStream | test/e2e/report/report.go:57-87 | what the mask hides in every line is hidden in the stream, across line ends too |
| Masking.NoSecretInStream | test/e2e/report/report.go:91-106 | no non-empty secret without star and newline occurs in the output, redaction included |
| Masking.WriteMasked | test/e2e/report/report.go:40-106 | the whole path for every cutting and every sink: no non-empty secret without star and newline in what the sink keeps; a clean stream reaches a sink that refuses nothing unchanged |
| Reclaim.ReclaimableEntries | test/e2e/reclaim/reclaim.go:45-80 | the two loops compute the specified rows |
| Reclaim.MergeReclamationIDs | test/e2e/reclaim/reclaim.go:86-111 | the loops compute the specified identifiers, none twice |
| Reclaim.ScheduledExactly | test/e2e/reclaim/reclaim.go:41-111 | visited once: exactly the observed and the resolved-by-short-name identifiers that were not there before |
| Reclaim.LedgerCountsCalls | test/e2e/ledger_test.go:56-87 | in a disciplined run the ledger counts calls |
| Reclaim.DisciplinedPrefix | test/e2e/ledger_test.go:56-58 | a run cut off anywhere is disciplined |
| Reclaim.EveryCreatedIsScheduled | test/e2e/reclaim/reclaim.go:41-111 | every created volume is scheduled once, given complete resolution, and nothing that was there before |
| Reclaim.UnobservedIffShort | test/e2e/reclaim/reclaim.go:72-77 | a volume no line identifies is scheduled exactly when its name is short |
| Reclaim.DoubleIdentificationLeaks | test/e2e/reclaim/reclaim.go:72-77 | two identifier lines for one call hide another call's volume |
| Reclaim.Ledger.Record | test/e2e/ledger_test.go:58-77 | a line counts exactly when it was written and flushed, and is then in the file |
| Reclaim.CreateTracked | test/e2e/ledger_test.go:81-87 | reserve, create, identify keeps the discipline under any fault |
| Reclaim.RunCleanupEffects | test/e2e/reclaim/reclaim.go:116-134 | effects in order until the budget ends, every failure kept; it stops early exactly when the budget ends |
| Reclaim.EffectFailuresAre | test/e2e/reclaim/reclaim.go:121-133 | the failures are exactly those of the identifiers visited |
| Reclaim.Teardown | test/e2e/ledger_test.go:120-167 | while the budget lasts every short name is resolved or reported and everything then scheduled is visited, failed deletions reported; never twice, never a volume from before; the budget is reported as expired exactly when it ends before the last check a complete teardown makes |
| Reclaim.TeardownRun | test/e2e/ledger_test.go:120-167 | without failures every volume of a disciplined run was deleted |
| Outcome.Reconcile | test/e2e/catalogue/outcome.go:130-164 | the loops compute the specified records |
| Outcome.KeptIsFirstWorst | test/e2e/catalogue/outcome.go:130-140 | an identifier keeps the first of its worst records |
| Outcome.WorstIsKept | test/e2e/catalogue/outcome.go:166-181 | a recorded failure is kept over a skip, a skip over a demonstration |
| Outcome.ReconcileOrder | test/e2e/catalogue/outcome.go:141-163 | selected first, then strays in order of appearance, none twice unless selected twice |
| Outcome.ReconcileWorst | test/e2e/catalogue/outcome.go:130-164 | each identifier carries its first worst record or a never-ran skip |
| Outcome.KeptOrderFree | test/e2e/catalogue/outcome.go:169-180 | the severity kept, and a catalogued state, do not depend on record order |
| Outcome.KeptOrderFreeIff | test/e2e/catalogue/outcome.go:130-180 | the state kept is independent of record order exactly when a catalogued state was recorded or all unknown states agree |
| Outcome.UnknownStatesDependOnOrder | test/e2e/catalogue/outcome.go:177 | two unknown states: the first recorded is kept |
| Outcome.ReconcileIdempotent | test/e2e/catalogue/outcome.go:130-164 | reconciling twice is reconciling once |
| Outcome.SkipsPartition | test/e2e/catalogue/outcome.go:346-355 | counts by reason never exceed the total, so the clamp never acts |
| Outcome.Summarize | test/e2e/catalogue/outcome.go:185-226 | counts and verdict: failed exactly on a failed record or an incoherent check, demonstrated exactly when also every skip is excused |
| Outcome.VerdictMeans | test/e2e/catalogue/outcome.go:328-341 | what the verdict rule means in terms of the records |
| Outcome.CoherentExactly | test/e2e/catalogue/outcome.go:251-296 | which records each tier admits |
| Outcome.StrictRunMeans | test/e2e/catalogue/outcome.go:251-355 | in a strict demonstrated run each selected check was demonstrated, waits on a window or shape, or cannot be forced |
| Outcome.SilenceIsIncoherent | test/e2e/catalogue/outcome.go:257-260 | a selected check no record mentions is incoherent after reconciliation |
| Outcome.FailureSurvives | test/e2e/catalogue/outcome.go:130-164 | reconciliation hides no failure and invents none |
| Outcome.Judge | test/e2e/catalogue/outcome.go:130-226 | reconcile and summarize: the strict verdict is demonstrated exactly when nothing failed, every skip is excused and every selected check is coherent |
| Report.CoherenceFindings | test/e2e/report/report.go:540-554 | names exactly the selected checks whose last record disagrees with the catalogue |
| Report.ReportAgrees | test/e2e/report/report.go:556-596 | a run fails exactly when a record failed or the report has a finding |

## Left out

- What a call that others interfere with leaves at its path: for such calls only their discipline is stated. Other actors on a volume are covered by the script of `Attachment.Cloud`.
- Kernel semantics of mount flags and superblock options, and the half-written state a killed mkfs may leave: a failing mkfs either had its effect or none.
- DiscoverDevice and symlink resolution: the device, or why there is none, is part of a request. GetMountSource and NodeGetInfo are not modelled.
- Parent directories of a target: only whether making them fails.
- Host.Host.Mount: the source flags are those of a fixed table per source; a statfs that changes between calls is not modelled.
- Host.Host.RunMount: hands its options over as a list; the argument vector is the subject of `MountArgs`.
- Attachment.Cloud.AttachVolume: that an accepted attach is returned is stated for a cloud that answers truthfully in bounded time; the other guarantees are for every script.
- Attachment.Cloud.DetachVolume: that an accepted detach succeeds is stated for such a cloud too.
- Attachment.Cloud.WaitForAttachmentJob: job error code and text are not kept.
- Volumes.ListVolumes: the single-page mode with explicit limit or offset is not modelled, and each answer serves at most 100 volumes of an unchanging list.
- Provisioning.CreateVolume: capability, content source and parameter validation is one flag of the request, and the client's create call with its job wait is one outcome; volume metadata is omitted.
- Capacity.AdoptedWithoutLimit: stated for sizes that fit int64, as in the source.
- Redaction.RedactString: bytes are characters, and attribute and handler plumbing of the logger is not modelled.
- Masking.MaskingWriter.Write: a refused write leaves nothing behind in the sink; the mutex is not modelled.
- Sorting: the library sort is an insertion sort with the same contract.
- strings.TrimSpace trims ASCII white space only.
- Reclaim.Ledger.Record: encoding and time stamps are omitted; attachment rows count as other lines.
- Reclaim.Teardown: the volumes from before the run are a set of identifiers, and releasing the run's mounts is one flag.
- HTTP transport, signing, redirects, JSON decoding, configuration, metadata, start-up and shutdown; the identity service, capability listings and gRPC code tables; report layout, evidence and catalogue contents: input and output, or one-branch facts.
