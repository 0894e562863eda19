# Azure Lustre CSI driver: a verified model

This project models the control logic of the Azure Lustre CSI driver in Dafny and proves what that logic keeps.
`dafny verify dfyconfig.toml` checks all of it.

- **Provisioning.** `Provisioner.dfy` has the create call as code, over an Azure that answers as it likes, with a log
  of every request and answer. Each method is proved to exchange exactly the events a relation (`CreateRun` and its
  parts) allows; `ProvisionerRuns.dfy` proves theorems about all such runs and about sequences of retries.
  `GrpcErrors.dfy` is the classification of errors, `Skus.dfy` the SKU table.
- **Identity.** `FoldMaps.dfy` has the case-insensitive parameter maps, `StorageParameters.dfy` the parser of storage
  class parameters, `VolumeIdentity.dfy` the printer, the parser and the two readers of a volume, `Controller.dfy`
  `CreateVolume` and `DeleteVolume` and what a created volume is to later calls.
- **Capacity.** `Capacity.dfy` has the rounding in wrapping 64-bit arithmetic and the conversion to float32, as rounding
  to a 24-bit significand.
- **Paths, templates, mounts.** `Paths.dfy` has lexical path cleaning as a machine over a stack of components,
  `Templates.dfy` and `Substitution.dfy` the placeholder substitution, `MountSteps.dfy` the steps of a publish or
  unpublish on the mount table with every mounter call and its answer, `NodeServer.dfy` the code, and `NodeMounts.dfy`
  any interleaving of such calls.
- **End to end.** `EndToEnd.dfy` goes from the parameters of a storage class, by keys and values as they are written,
  to the requests Azure gets, the source a pod's volume is mounted from and the deletion of the cluster.
- **Concurrency.** `VolumeLocks.dfy` has the try-lock set under any number of RPCs, `Taints.dfy` the removal of the
  not-ready taint among other writers.

Go iterates over a map in an arbitrary order (`MapIteration.dfy`); the loops here take the next key with `:|`, so a
contract holds for every order. The methods that change state are tied by their contracts to functions and relations
on values, and the theorems are about those. What such a function says is stated once more in terms of the written keys,
texts, codes and answers, without naming it.

## What the proofs show about the code

- The Timeout branch of the retry check deletes without looking at the cluster again
  (`pkg/azurelustre/dynamic_provisioning.go:291-294`): a cluster that existed and was healthy when the call began is
  deleted if the update request times out (`ProvisionerRuns.TimeoutDeletesHealthyCluster`). The other branch deletes
  only after a fresh Get showed Failed.
- The overflow error of the capacity rounding means that the rounded value does not fit exactly for the blocks that
  divide 2^63, such as the default of 4 TiB (`Capacity.OverflowIsExactIff`). For any other block,
  `Capacity.SpuriousOverflowIff` says which capacities are refused although their rounded value fits.
- A `#` in a sub-directory can make the ID of a static volume read as that of a dynamic one, so that deleting it asks
  Azure for the deletion of a cluster (`VolumeIdentity.HashInSubDirMisleads`). `VolumeIdentity.StaticDeletionCallsIff`
  gives the exact condition. A `#` in the sub-directory of a dynamic volume can make its deletion do nothing or ask for
  another cluster; `VolumeIdentity.DynamicDeletionIff` says when.
- An address key with an empty value counts as static in the parser and as dynamic in `CreateVolume`, and then none of
  the parameters a new cluster needs is asked for (`Controller.DecisionsDifferIff`): a cluster can be created by a
  request with an empty maintenance day (`Controller.EmptyAddressExample`);
  `Controller.EmptyDayIff` says exactly when.
- An empty sub-directory is noticed only after the cluster has been created, which is then left behind: once a cluster
  is delivered, the call fails exactly when the sub-directory is given empty (`Controller.OrphanIff`,
  `Controller.OrphanRun`).
- The result of parsing depends on the order of map iteration exactly when the parameters pass and `zone` and `zones`
  are both given with different values (`StorageParameters.OrderShowsIff`, `StorageParameters.ZoneDependsOnOrder`). The
  result of the substitution depends on it for some sub-directory exactly when the value of one placeholder can be part
  of an occurrence of another one (`VolumeIdentity.InterpolationIsDeterminedIff`). That is so for a value that is itself
  a placeholder (`VolumeIdentity.PodNameShowsOrder`), but also for values without `$`
  (`VolumeIdentity.CutPlaceholderShows`).
- `ensureMountPoint` promises false without error for anything that is not mounted
  (`pkg/azurelustre/nodeserver.go:527-529`), but after unmounting a mount that cannot be read it returns the error of
  reading it (line 557). `MountSteps.FailsUnmountedIff` says exactly when it leaves a path unmounted and returns an
  error; `MountSteps.UnreadableMountFailsOnce` has the publish that fails so, and shows that every publish after it
  without a harmful failure mounts the target again.
- The lock key of a node call does not tell where the volume ID ends, so calls for different volumes and targets can
  refuse each other (`VolumeLocks.KeysCanCollide`); `VolumeLocks.PlainKeysAreFaithful` says for which they do not.

## Hypotheses

- Parameter keys are ASCII, and no two of them are equal up to case (`FoldDistinct`).
- Fields printed into an ID hold no `#`, where a theorem says so.
- The mount-point test is accurate unless it fails, each target belongs to one volume with one address, and the working
  paths of different targets are different and are no targets (`NodeMounts.ValidConfig`;
  `NodeServer.WorkingPathsAreValid` derives the last two from the shape of the paths).
- What an earlier run of the plugin left on the node is at most one mount per path, from a source of the volume.
- The literal parts of a template hold no `$`, in `Templates.dfy` and `VolumeIdentity.TemplateInterpolation` alone; the
  theorems of `Substitution.dfy` are about any text.
- A mount that reports failure has mounted nothing. A successful `CleanupMountWithForce` leaves nothing mounted on its path.

## Model

| member | source | states |
|---|---|---|
| `GrpcErrors.ClassificationIsStable` | pkg/azurelustre/dynamic_provisioning.go:49-116 | Converting an error twice is converting it once; after any number of conversions and the final rewrapping the error is not nil and its code is the first conversion's, never OK. |
| `GrpcErrors.DeadlineExceededCauses` | pkg/azurelustre/dynamic_provisioning.go:49-116 | Exactly which raw errors become DeadlineExceeded, the code that may start a delete and retry. |
| `GrpcErrors.CodesAreThese` | pkg/azurelustre/dynamic_provisioning.go:49-116 | The code of every kind of error, HTTP status by HTTP status, and which markers its text carries. |
| `GrpcErrors.OwnCodes` | pkg/azurelustre/dynamic_provisioning.go:49-116 | The codes of the errors the driver makes itself; converting these changes nothing. |
| `Provisioner.FirstUsageMeaning` | pkg/azurelustre/dynamic_provisioning.go:443-457 | The usage entry used is the first one with the subnet's ID, and there is none exactly when no entry has it. |
| `Provisioner.PagingIsIrrelevant` | pkg/azurelustre/dynamic_provisioning.go:436-460 | The free addresses depend only on the concatenation of the pages. |
| `Provisioner.CheckSubnetAddresses` | pkg/azurelustre/dynamic_provisioning.go:436-460 | The loops over pages and entries compute the free addresses of the specification, including a failing page and a missing subnet. |
| `Provisioner.EnoughIff` | pkg/azurelustre/dynamic_provisioning.go:412-481 | The addresses are enough exactly when, together with those in use, they are within the limit of the first entry with the subnet's ID of the concatenated pages. |
| `Provisioner.GoIntTruncates` | pkg/azurelustre/dynamic_provisioning.go:451-453 | Reading a count from a float64 cuts off its fraction, towards zero. |
| `Provisioner.DynamicProvisioner.CurrentClusterState` | pkg/azurelustre/dynamic_provisioning.go:118-144 | One Get for the cluster; the state or error is what its answer means. |
| `Provisioner.DynamicProvisioner.DeleteAmlFilesystem` | pkg/azurelustre/dynamic_provisioning.go:146-168 | Requests the deletion of the given cluster, polls only if accepted, and reports the converted error. |
| `Provisioner.DynamicProvisioner.TryDeleteBeforeRetry` | pkg/azurelustre/dynamic_provisioning.go:276-285 | One deletion; always an error: Aborted if it completed, its own error if not. |
| `Provisioner.DynamicProvisioner.CheckErrorForRetry` | pkg/azurelustre/dynamic_provisioning.go:287-308 | A timeout is retried at once; another marked failure only if one fresh Get shows Failed; anything else is not, without a call. |
| `Provisioner.DynamicProvisioner.CheckSubnetCapacity` | pkg/azurelustre/dynamic_provisioning.go:412-481 | Asks for the required size, then the usage; enough exactly when the required addresses are at most the free ones. |
| `Provisioner.DynamicProvisioner.GetSkuValuesForLocation` | pkg/azurelustre/dynamic_provisioning.go:310-334 | One logged query whose pages determine the answer; an Internal error without a call if the client is nil. |
| `Provisioner.DynamicProvisioner.CreateAmlFilesystem` | pkg/azurelustre/dynamic_provisioning.go:170-274 | The events exchanged with Azure and the result are a run of the create protocol, and the log grows by exactly these events. |
| `ProvisionerRuns.NoClientNoCall` | pkg/azurelustre/dynamic_provisioning.go:170-173 | Without a client nothing is asked and the call ends with Internal. |
| `ProvisionerRuns.FirstAnswerDecides` | pkg/azurelustre/dynamic_provisioning.go:118-236 | What the first answer leads to, by the answer itself: the state Deleting ends the call with Aborted and no other request; the state Failed, any other one and none are followed by the create; a cluster that is not found by the question for its size; any other error ends the call. Without a subnet nothing is asked. |
| `ProvisionerRuns.CapacityDecides` | pkg/azurelustre/dynamic_provisioning.go:210-236 | After the size of a cluster was asked for: an error of that answer ends the call, otherwise the usage is listed next, and the create follows exactly when the addresses suffice; ResourceExhausted if not. |
| `ProvisionerRuns.FailureDecides` | pkg/azurelustre/dynamic_provisioning.go:238-308 | What a failed create or poll leads to, by its error: a delete next for DeadlineExceeded with a Timeout marker; with an Error or Fail marker a Get next, and a delete exactly when that answers the state Failed; otherwise the end of the call with that error. |
| `ProvisionerRuns.RunIsFor` | pkg/azurelustre/dynamic_provisioning.go:180-250 | Every create of a call carries the request of its properties to their cluster; every query for usage is for their network. |
| `ProvisionerRuns.DeleteGating` | pkg/azurelustre/dynamic_provisioning.go:238-308 | In every run, a delete goes only to the cluster being created and only after this call's own create or poll failed with DeadlineExceeded and a Timeout marker, or an Error or Fail marker and a fresh Get showing Failed; such a failure always leads to a delete; after a delete the call ends in an error. |
| `ProvisionerRuns.AddressMeansCreated` | pkg/azurelustre/dynamic_provisioning.go:253-274 | An address is returned exactly when the poll of this call's create delivered it, and then no delete was sent. |
| `ProvisionerRuns.CreateGating` | pkg/azurelustre/dynamic_provisioning.go:210-253 | A create is sent exactly when the first Get showed the cluster existing or failed, or absent with enough free addresses; never after Deleting. At most one create and one delete per call, in that order, and the create carries the request built from the properties. |
| `ProvisionerRuns.FailureOutcome` | pkg/azurelustre/dynamic_provisioning.go:240-308 | After a failed create or poll the call reports that error's classification, unless the following Get fails; once a delete was sent, Aborted if it completed and the deletion's own error if not. |
| `ProvisionerRuns.ErrorProvenance` | pkg/azurelustre/dynamic_provisioning.go:170-308 | Every error of a create call is a verdict of the driver or the conversion of an error Azure answered in this call, and its code is not OK. |
| `ProvisionerRuns.TimeoutDeletesHealthyCluster` | pkg/azurelustre/dynamic_provisioning.go:287-294 | A run in which a cluster that existed when the call began is deleted after a timeout of the poll, without a second Get. |
| `ProvisionerRuns.FailedAttemptCosts` | pkg/azurelustre/dynamic_provisioning.go:215-285 | If nothing else goes wrong, a call without an address met a retryable failure or a Deleting answer, and reported Aborted. |
| `ProvisionerRuns.RetryProgress` | pkg/azurelustre/dynamic_provisioning.go:215-285 | With at most n retryable failures and m Deleting answers, and nothing else going wrong, one of the first n + m + 1 calls returns an address. |
| `ProvisionerRuns.BenignCalls` | pkg/azurelustre/dynamic_provisioning.go:215-285 | Two calls in which nothing else goes wrong: a cluster is deleted after a timeout of the poll, and a cluster is delivered. |
| `Skus.CollectAmlfsSkus` | pkg/azurelustre/dynamic_provisioning.go:316-334 | The AMLFS SKUs of the concatenated pages in order; an error exactly when a page fails. |
| `Skus.ReadZones` | pkg/azurelustre/dynamic_provisioning.go:357-373 | The non-empty zones of all matching location entries, and whether one of these has a zone list. |
| `Skus.ReadCapabilities` | pkg/azurelustre/dynamic_provisioning.go:377-393 | The last readable value of each of the two capabilities, or zero. |
| `Skus.SortedIsUnique` | pkg/azurelustre/dynamic_provisioning.go:395 | A sequence has one sorted permutation, so the sorting algorithm does not matter. |
| `Skus.BelowMeaning` | pkg/azurelustre/dynamic_provisioning.go:395 | The order of zones: by the first difference, or a beginning before what continues it. |
| `Skus.GetSkuValuesForLocation` | pkg/azurelustre/dynamic_provisioning.go:310-410 | The loops refine the specification: a failing page, an offered SKU without location entry or an empty table is an Internal error, and otherwise each name has the value of the last usable offered SKU. |
| `Skus.AnswerDependsOnConcatenation` | pkg/azurelustre/dynamic_provisioning.go:322-334 | The answer depends only on the concatenation of the pages. |
| `Skus.DuplicateLocationsDoNotMatter` | pkg/azurelustre/dynamic_provisioning.go:341-347 | Repeated or reordered location entries, which make the code process a SKU several times, do not change the answer. |
| `Skus.EntryMeaning` | pkg/azurelustre/dynamic_provisioning.go:354-402 | A name is in the table exactly when a usable SKU of it is offered; its entry comes from the last one, with non-zero increment and maximum, and its zones are the sorted permutation of that SKU's zones. |
| `Skus.TableIff` | pkg/azurelustre/dynamic_provisioning.go:336-402 | Of an answer: a name is in the table exactly when some SKU of the pages has it, is an AMLFS SKU offered in the location, and has a last readable increment and a last readable maximum that are not zero; its entry has these numbers of the last such SKU and its zones in order. |
| `Skus.AnswerFailsIff` | pkg/azurelustre/dynamic_provisioning.go:310-410 | The query fails, with Internal, exactly when a page failed, an AMLFS SKU is offered in the location without a zone list for it, or no SKU can be used there. |
| `Skus.LookedUp` | pkg/azurelustre/controllerserver.go:413-429 | Looking a SKU name up in the answer gives the value the pages determine for it: Internal for a failing page, a missing location entry or an empty table, InvalidArgument for a name that is not offered. |
| `FoldMaps.GetValueInMap` | pkg/util/util.go:187-197 | Returns the value of some key equal up to case, and the empty string if there is none or the map is nil. |
| `FoldMaps.GetIsDetermined` | pkg/util/util.go:187-197 | The search has one answer for all iteration orders exactly when the matching entries agree. |
| `FoldMaps.GetLaw` | pkg/util/util.go:187-197 | Over fold-distinct maps the search returns the entry of the lower-cased map. |
| `FoldMaps.SetKeyValueInMap` | pkg/util/util.go:172-184 | Sets one entry of the lower-cased map, keeps fold-distinctness and leaves every other key as it was; does nothing to a nil map. |
| `FoldMaps.SetLaw` | pkg/util/util.go:172-184 | Writing under the matching key, or the given one if none matches, changes that folded key only. |
| `Text.LowerMeaning` | pkg/azurelustre/controllerserver.go:98 | Lower-casing turns the letters A to Z into a to z and changes nothing else. |
| `StorageParameters.ConvertTagsToMap` | pkg/util/util.go:138-157 | The loop computes the parse of the tag text, failing for an entry that is not key=value or has an empty key. |
| `StorageParameters.TagsRoundTrip` | pkg/util/util.go:138-157 | Tags written as key=value pairs between commas are read back; the last value of a repeated key wins. |
| `StorageParameters.TagsRefusedIff` | pkg/util/util.go:138-157 | Tags are refused exactly when an entry between commas has not one '=' or has a blank key. |
| `StorageParameters.TrimSpaceMeaning` | pkg/util/util.go:138-157 | Trimming takes the white space off both ends and nothing else. |
| `StorageParameters.TrimmedIff` | pkg/util/util.go:138-157 | A text is trimmed exactly when it neither begins nor ends with white space. |
| `StorageParameters.ParseAmlFilesystemProperties` | pkg/azurelustre/controllerserver.go:88-202 | The result is that of some order of the parameters. For fold-distinct keys it is a success exactly when all entries are acceptable and, without an address key, the required ones are there; then the properties are those the map describes; otherwise InvalidArgument. |
| `StorageParameters.ParsedFromKeys` | pkg/azurelustre/controllerserver.go:104-177 | Each property is the value of its parameter, by the key as it is written. |
| `StorageParameters.AcceptedIff` | pkg/azurelustre/controllerserver.go:104-177 | An entry is accepted exactly when its key is one of those listed and its value fits: a day of the week, a time of day up to 23:59, tags without a reserved name. |
| `StorageParameters.CompleteIff` | pkg/azurelustre/controllerserver.go:179-199 | The parameters are complete exactly when an address key is among them, or a day, a time and a SKU are given. |
| `StorageParameters.ParsingIsDetermined` | pkg/azurelustre/controllerserver.go:104-177 | Two results the map describes agree in all but the zone, and in the zone unless zone and zones are both given with different values. |
| `StorageParameters.OrderShowsIff` | pkg/azurelustre/controllerserver.go:104-177 | Two orders of the parameters give different results exactly when the parameters pass and zone and zones are both given with different values. |
| `StorageParameters.ZoneDependsOnOrder` | pkg/azurelustre/controllerserver.go:104-177 | Parameters of a new cluster and two orders of them that are both accepted, with two different zones. |
| `StorageParameters.TagsAreADisjointUnion` | pkg/azurelustre/controllerserver.go:92-96 | The tags are the disjoint union of the driver's tag, with the driver's value, the user's tags and the claim and volume tags. |
| `StorageParameters.TagsByName` | pkg/azurelustre/controllerserver.go:92-96 | The driver's tag has its value; the tags for claim, namespace and volume are there exactly when their parameters are, with their values. |
| `VolumeIdentity.IdRoundTrip` | pkg/azurelustre/azurelustre.go:337-364 | Parsing a printed ID whose fields hold no '#' gives the fields back. |
| `VolumeIdentity.IdRoundTripIff` | pkg/azurelustre/azurelustre.go:337-364 | Parsing a printed ID gives the fields back only if they hold no '#'. |
| `VolumeIdentity.ShortIds` | pkg/azurelustre/azurelustre.go:337-364 | IDs with one or two fields are not read; with three or four the missing fields are empty and the volume is static. |
| `VolumeIdentity.CreateVolumeIdFromParams` | pkg/azurelustre/controllerserver.go:602-630 | For every order of the parameters: refused exactly when a sub-directory is given that is empty but for slashes; otherwise the ID of the folded entries. |
| `VolumeIdentity.SubDirEmptyIff` | pkg/azurelustre/controllerserver.go:602-630 | A sub-directory counts as given empty exactly when it is given and holds nothing but slashes. |
| `VolumeIdentity.NewLustreVolume` | pkg/azurelustre/nodeserver.go:708-757 | For every order of the context: the volume read from the folded entries, or InvalidArgument for an empty sub-directory or a missing address. |
| `VolumeIdentity.ReadByKeys` | pkg/azurelustre/nodeserver.go:708-757 | The volume the node reads, field by field, by the keys of the context as they are written. |
| `VolumeIdentity.GetVolume` | pkg/azurelustre/nodeserver.go:230-250 | The volume of the context, and the mismatch warning exactly when the ID parses to another volume. |
| `VolumeIdentity.ReadersAgree` | pkg/azurelustre/nodeserver.go:230-250 | The reader of the context and the parser of the ID printed from it give the same volume in all seven fields. |
| `VolumeIdentity.StaticDeletionIsSilentIff` | pkg/azurelustre/controllerserver.go:509-546 | Deleting a static ID calls the provisioner exactly when the fifth of its segments is "t" and the sixth is not empty, for the cluster these name; it is let pass without a look exactly when the fifth is not "t". |
| `VolumeIdentity.StaticDeletionCallsIff` | pkg/azurelustre/controllerserver.go:509-546 | With a name and an address without '#', that is exactly when the second segment of the sub-directory is "t" and its third, if there is one, is not empty; never if the sub-directory holds no '#'. |
| `VolumeIdentity.DynamicDeletionIff` | pkg/azurelustre/controllerserver.go:509-546 | With a name and an address without '#', deleting a dynamic ID asks for the cluster it was created with exactly as the segments of sub-directory and resource group allow; otherwise it asks for another one, is refused, or does nothing. |
| `VolumeIdentity.HashInSubDirMisleads` | pkg/azurelustre/controllerserver.go:509-546 | A sub-directory ending in "#t" makes the deletion of a static volume ask for the deletion of a cluster of its name in resource group f. |
| `VolumeIdentity.InterpolateSubDirVariables` | pkg/azurelustre/nodeserver.go:183-208 | The result is one the sub-directory can become when the placeholders of the metadata in the context are replaced in some order. |
| `VolumeIdentity.PlaceholdersFilled` | pkg/azurelustre/nodeserver.go:183-208 | For each of the seven pairs of a context key and a placeholder, as written: a sub-directory that is the placeholder becomes the value of the key, and nothing else, if nothing clashes. |
| `VolumeIdentity.InterpolationIsSimultaneous` | pkg/azurelustre/nodeserver.go:183-208 | If no value can be part of an occurrence of another placeholder, any sub-directory becomes the text with all placeholders replaced in one scan, and nothing else, in every order. |
| `VolumeIdentity.TemplateInterpolation` | pkg/azurelustre/nodeserver.go:183-208 | A sub-directory whose literal parts hold no '$' becomes the template with all placeholders replaced at once, and nothing else, if no placeholder can start in the value of another one, in particular if no value holds '$'. |
| `VolumeIdentity.InterpolationIsDeterminedIff` | pkg/azurelustre/nodeserver.go:183-208 | A context gives every sub-directory one result exactly when no value can be part of an occurrence of another placeholder that is replaced by something else. |
| `VolumeIdentity.CutPlaceholderShows` | pkg/azurelustre/nodeserver.go:183-208 | For any two metadata keys, a sub-directory that holds the placeholder of one cut in two by that of the other, values without '$', and its two results. |
| `VolumeIdentity.PlaceholderValuesShowOrder` | pkg/azurelustre/nodeserver.go:183-208 | For any two metadata keys, if the value of one is the placeholder of the other, two orders give two results. |
| `VolumeIdentity.PodNameShowsOrder` | pkg/azurelustre/nodeserver.go:183-208 | Such a context: a pod called by the placeholder of the volume name, and the two sub-directories its placeholder can become. |
| `VolumeIdentity.SubstitutesIsDetermined` | pkg/azurelustre/nodeserver.go:183-208 | The replacements are determined by the context. |
| `VolumeIdentity.PlaceholdersAreTokens` | pkg/azurelustre/azurelustre.go:72-78 | Every placeholder begins with its only '$' and ends with its only '}'. |
| `Templates.ReplaceWithMap` | pkg/util/util.go:160-168 | The result is that of replacing the keys one after the other in some order that takes each key once. |
| `Templates.OrderDoesNotMatter` | pkg/util/util.go:160-168 | For a template whose literal parts hold no '$': if no occurrence of a placeholder can start in the value of another one, in particular if no value holds '$', every order gives the simultaneous substitution. |
| `Templates.PlainOrderNeverShowsIff` | pkg/util/util.go:160-168 | For all templates whose literal parts hold no '$' every order gives the same result, exactly when no occurrence of a placeholder that is replaced by something else can start in the value of another one. |
| `Substitution.OrderNeverShowsIff` | pkg/util/util.go:160-168 | For every text every order gives the same result, exactly when no value can be part of an occurrence of another placeholder that is replaced by something else: they can be laid over each other so that they agree where they overlap. |
| `Substitution.OrderIsScan` | pkg/util/util.go:160-168 | Under that condition every order gives, in any text, the result of one scan that replaces all placeholders at once. |
| `Substitution.CutPlaceholderShowsOrder` | pkg/util/util.go:160-168 | Values without '$' are not enough: a placeholder cut in two by another one whose value completes it, and two orders with two results. |
| `Templates.OrderMattersForDollarValues` | pkg/util/util.go:160-168 | For any two placeholders, two orders with different results when the value of one is the other. |
| `Paths.StrictSubpathMeaning` | pkg/azurelustre/nodeserver.go:699-705 | The check passes exactly for a non-empty relative path with a component left and no leading ".." after cleaning; then no component is "..". |
| `Paths.JoinAppends` | pkg/azurelustre/nodeserver.go:595-624 | Joining a local path appends its components to those of the base. |
| `Paths.CleanRoundTrip` | pkg/azurelustre/nodeserver.go:703-705 | Cleaning keeps the components of a path and is idempotent. |
| `Paths.CleanRules` | pkg/azurelustre/nodeserver.go:699-705 | The rules of path cleaning: a name is added, "." and repeated slashes are dropped, ".." takes away the name before it and stays only at the front of a relative path. |
| `Paths.VolumePathContainment` | pkg/azurelustre/nodeserver.go:595-624 | The path exists exactly when both checks pass, and its components are those of the working directory, then the target, then the sub-directory; both additions are non-empty and free of "..". |
| `Paths.SourceContainment` | pkg/azurelustre/nodeserver.go:95-118 | The mount source of a sub-directory that passes the check lies strictly below that of the filesystem. |
| `Paths.SourceComponents` | pkg/azurelustre/nodeserver.go:591-593 | The components of a filesystem's source: the address with "@tcp:", then "lustrefs". |
| `Capacity.RoundingIsSound` | pkg/azurelustre/controllerserver.go:431-452 | For positive capacity and block in wrapping arithmetic: overflow exactly when capacity + block - 1 exceeds 2^63 - 1, otherwise the least multiple that covers the capacity, refused exactly when a positive maximum is below it. |
| `Capacity.CeilMultipleIsLeast` | pkg/azurelustre/controllerserver.go:431-452 | No smaller multiple of the block covers the capacity. |
| `Capacity.RoundingMatchesRoundUpSize` | pkg/util/util.go:60-66 | The rounded capacity is the number of units roundUpSize gives times the block. |
| `Capacity.SpuriousOverflowIff` | pkg/azurelustre/controllerserver.go:440-445 | A capacity is refused as overflow although its rounded value fits exactly if it is above 2^63 less the block and at most the last multiple of the block. |
| `Capacity.OverflowIsExactIff` | pkg/azurelustre/controllerserver.go:440-445 | For all capacities overflow means that the rounded value does not fit, exactly when the block divides 2^63. |
| `Capacity.TibToBytesExact` | pkg/azurelustre/controllerserver.go:319-320 | The product of TiB and 2^40 does not wrap exactly below 2^23 TiB. |
| `Capacity.Float32Exact` | pkg/azurelustre/controllerserver.go:331 | The conversion to float32 is exact precisely for multiples of the unit in the last place. |
| `Capacity.TibValueIsExact` | pkg/azurelustre/controllerserver.go:331 | Every non-negative int64 multiple of 2^40 gives the exact whole number of TiB. |
| `Controller.GrantCapacity` | pkg/azurelustre/controllerserver.go:285-339 | Success exactly when a capacity can be granted, with that capacity; otherwise InvalidArgument. |
| `Controller.CapacityContract` | pkg/azurelustre/controllerserver.go:285-343 | For SKU values below 2^23 TiB, a granted capacity is at least the request and at most the limit and the maximum, it is the least whole number of blocks, and its TiB value is exact. |
| `Controller.CanGrantIff` | pkg/azurelustre/controllerserver.go:285-339 | A capacity is granted exactly when the block can be added without overflow and the least multiple of the block that covers the request is at most the maximum and at most the limit, where these are given; that multiple is the capacity. |
| `Controller.Driver.SkuFor` | pkg/azurelustre/controllerserver.go:413-429 | One logged query, and exactly the value or error its pages determine for the SKU; an Internal error without a call if the client is nil. |
| `Controller.Driver.PlanCluster` | pkg/azurelustre/controllerserver.go:300-370 | A plan exactly when the logged pages give the SKU, the capacity can be granted, the zone fits and the name is valid; it has what the parameters give, the cloud configuration where they give nothing, and the granted capacity. Otherwise the error of the query, or InvalidArgument. |
| `Controller.PlannedFields` | pkg/azurelustre/azurelustre.go:269-295 | Each field of the cluster is what the parameters give, and the configured value only where they give none, the configured network resource group before the plain one; a zone is given exactly when the SKU has zones, and is one of them. |
| `Controller.SubnetSegments` | pkg/azurelustre/azurelustre.go:269-295 | Between slashes, the subnet's ID has the subscription, the group, the network and the subnet at their places. |
| `Controller.PlannableIff` | pkg/azurelustre/controllerserver.go:300-375 | A new cluster can be planned exactly when the capacity can be granted in increments of the SKU up to its maximum, the zone fits the SKU's zones and the name is valid; the capacity is the least number of increments that covers the request. |
| `Controller.StaticIff` | pkg/azurelustre/controllerserver.go:285-400 | A static volume is created exactly when its capacity in blocks of 4 TiB does not overflow and is within the limit, and the sub-directory is not given empty. |
| `Controller.ValidNameIff` | pkg/azurelustre/controllerserver.go:204-211 | A valid name: 2 to 80 characters, a letter or digit at both ends, and letters, digits, '_' and '-' between. |
| `Controller.ContextByKeys` | pkg/azurelustre/controllerserver.go:388-393 | The context of a returned volume: the parameters with the resource group, the address, "lustrefs" and the marker "t" set, or with the marker "f". |
| `Controller.Driver.CreateVolume` | pkg/azurelustre/controllerserver.go:231-411 | Every refusal with its error, and every result fixed by the parameters and the logged events: a static volume exactly when parameters, capacity and sub-directory allow it, without a call; a dynamic one by the SKU query, the plan, the run of the create call and the sub-directory, in that order; a failed run with the provisioner's code. The lock is released on every path. |
| `Controller.EveryVolumeIsCreated` | pkg/azurelustre/controllerserver.go:388-411 | Every volume CreateVolume returns is one the identity and agreement theorems are about. |
| `Controller.Driver.DeleteVolume` | pkg/azurelustre/controllerserver.go:488-552 | What is deleted is determined by the ID alone; nothing is sent for a static ID, a missing resource group is refused, a failed deletion reports its code; the lock is released on every path. |
| `Controller.Driver.DeleteLocked` | pkg/azurelustre/controllerserver.go:528-548 | The calls to Azure are made only with the ID locked, and are those the ID determines. |
| `Controller.DynamicCreateDeleteIdentity` | pkg/azurelustre/controllerserver.go:388-398 | If no printed field holds '#', deleting a dynamic volume asks for exactly the resource group and name the create request went to, or is refused if that resource group is empty. |
| `Controller.DynamicDeleteIff` | pkg/azurelustre/controllerserver.go:509-546 | The same for every volume a dynamic create returned. |
| `Controller.StaticDeleteMakesNoCall` | pkg/azurelustre/controllerserver.go:509-546 | Deleting a static volume whose name, address and sub-directory hold no '#' makes no provisioner call, and neither did its creation. |
| `Controller.ControllerNodeAgreement` | pkg/azurelustre/nodeserver.go:230-250 | For every created volume with an address and no '#' in its fields, the node's volume from the returned context, with unrelated keys added, equals the one parsed from the ID in all seven fields. |
| `Controller.CreateFailureCode` | pkg/azurelustre/controllerserver.go:377-386 | The code CreateVolume reports after a call to Azure is that of an answer of this call as first classified, or of a verdict of the driver, and never OK. |
| `Controller.DecisionsDifferIff` | pkg/azurelustre/controllerserver.go:274-277 | The decision by value and the parser's decision by key differ exactly when the address is given empty, and then no required parameter is asked for. |
| `Controller.EmptyAddressSkipsChecks` | pkg/azurelustre/controllerserver.go:274-283 | With the address given empty and no maintenance day, a planned request has a run that creates a cluster by a request with an empty maintenance day. |
| `Controller.EmptyAddressExample` | pkg/azurelustre/controllerserver.go:274-283 | Such a request: an empty address and nothing else, and a run that creates its cluster. |
| `Controller.EmptyDayIff` | pkg/azurelustre/controllerserver.go:181-196 | A planned cluster is asked for with an empty maintenance day exactly when the address is given empty and no day is given. |
| `Controller.OrphanIff` | pkg/azurelustre/controllerserver.go:377-399 | Once Azure delivered the cluster, the call fails exactly when the sub-directory is given empty, with InvalidArgument, and nothing is deleted. |
| `Controller.OrphanRun` | pkg/azurelustre/controllerserver.go:377-399 | For every request with an empty sub-directory that can be planned, a run that creates its cluster and fails. |
| `Controller.SomePlan` | pkg/azurelustre/controllerserver.go:300-370 | For every valid name, subnet and parsed parameters without a zone there are SKU pages with which the request can be planned. |
| `EndToEnd.RequestFromParameters` | pkg/azurelustre/controllerserver.go:280-377 | The create request of a call, by the written keys: it goes to the given or configured resource group under the volume's name, and location, subnet, day, time, SKU, zone, identities and tags are those of the parameters, the configured ones only where none is given. |
| `EndToEnd.UsageOfNetwork` | pkg/azurelustre/azurelustre.go:269-295 | The usage is listed for the given or configured network resource group and network. |
| `EndToEnd.SkuFromParameters` | pkg/azurelustre/controllerserver.go:413-429 | The SKU values a create goes by are those of the given SKU in the given or configured location. |
| `EndToEnd.PodSeesDeliveredCluster` | pkg/azurelustre/nodeserver.go:91-121 | For every volume a dynamic create returned, the source the node mounts names the address the poll of that create delivered, and "lustrefs", and below it the components of the interpolated sub-directory. |
| `EndToEnd.DeletionReachesCreatedCluster` | pkg/azurelustre/controllerserver.go:509-546 | Deleting such a volume sends the deletion to the resource group and name the create request was sent to, succeeds exactly when it is accepted and its poll reports no failure, and otherwise has the code of that failure. |
| `VolumeLocks.Locks.TryAcquire` | pkg/azurelustre/volume_lock.go:44-52 | Succeeds exactly when the key was free, and leaves it locked. |
| `VolumeLocks.Locks.Release` | pkg/azurelustre/volume_lock.go:54-58 | Frees the key and no other. |
| `VolumeLocks.RunKeepsInv` | pkg/azurelustre/volume_lock.go:44-58 | In every run the lock set is the set of keys of the operations in flight, each with one owner. |
| `VolumeLocks.MutualExclusion` | pkg/azurelustre/nodeserver.go:78-84 | In every interleaving, no two creates of one name, deletes of one ID, or publish or unpublish calls for one volume and target overlap; with nothing in flight no key is locked. |
| `VolumeLocks.RefusedIffBusy` | pkg/azurelustre/controllerserver.go:254-259 | An RPC is refused exactly when another one with its key is in flight. |
| `VolumeLocks.PlainKeysAreFaithful` | pkg/azurelustre/nodeserver.go:78-84 | Node calls for absolute targets and IDs without "-/" share a key exactly when they are for the same volume and target. |
| `VolumeLocks.PlainRefusedIffSame` | pkg/azurelustre/nodeserver.go:78-84 | Among such calls one is refused exactly when another for its volume and target is in flight. |
| `VolumeLocks.KeysCanCollide` | pkg/azurelustre/nodeserver.go:78-84 | Other node calls can share a key although neither ID nor target is the same. |
| `VolumeLocks.ReturnReleasesOwnKey` | pkg/azurelustre/controllerserver.go:514-519 | A return frees its own key, and every other operation keeps its lock. |
| `Taints.TaintsToKeep` | pkg/azurelustre/azurelustre.go:424-433 | The loop computes the taints without the driver's key, in order. |
| `Taints.KeepMeaning` | pkg/azurelustre/azurelustre.go:424-438 | None with the key remains, all others keep their multiplicity, and the lengths agree exactly when nothing is to be removed. |
| `Taints.RemoveNotReadyTaint` | pkg/azurelustre/azurelustre.go:415-463 | The states the node goes through during the call are those of an attempt: a failed read and failure; or a read, foreign writes, and then success without a patch exactly if there was nothing to remove, or one patch whose answer is the result. A lost answer may hide that the patch was applied. |
| `Taints.AttemptSteps` | pkg/azurelustre/azurelustre.go:415-463 | Every step of an attempt is a step of the interleaving model. |
| `Taints.RemoveTaintInBackground` | pkg/azurelustre/azurelustre.go:394-413 | The retries continue a run of the interleaving model as one; success means that at some moment during the call the node had no taint of the key, and failure that all retries were made. |
| `Taints.PatchEffect` | pkg/azurelustre/azurelustre.go:440-459 | A patch that changes the list met the list its remover read and removed exactly the taints of the key. |
| `Taints.NoTaintIsLostOrRevived` | pkg/azurelustre/azurelustre.go:394-463 | Over every run of any number of removers and other writers, the taints of other keys are those of the last list another writer wrote, in order and multiplicity. |
| `Taints.RemovalIsFinal` | pkg/azurelustre/azurelustre.go:394-413 | Once the taints are gone, no later step of a remover changes the list. |
| `NodeMounts.MountTableInvariant` | pkg/azurelustre/nodeserver.go:78-181 | Over every interleaving of publish and unpublish calls with failures anywhere, from any table left before: at most one mount on a target, from its volume's filesystem or strictly below it if a sub-directory is asked for; at most one on a working path, of the filesystem, and only while its call is between mount and unmount or after a failed unmount; success means mounted after a publish and unmounted after an unpublish. |
| `NodeMounts.MountsOnlyOnFreePaths` | pkg/azurelustre/nodeserver.go:626-681 | No call mounts where something is mounted: a working mount left behind is unmounted first. |
| `MountSteps.FailsUnmountedIff` | pkg/azurelustre/nodeserver.go:530-564 | The path is left unmounted with an error exactly when nothing was mounted and a call failed, or its one mount could not be read and was then unmounted. |
| `MountSteps.FailsIff` | pkg/azurelustre/nodeserver.go:78-181 | A publish fails exactly when it needs a working path that does not pass its check, or one of its mounter calls fails other than the deferred unmount; when it succeeds its target is mounted. |
| `MountSteps.UnreadableMountFailsOnce` | pkg/azurelustre/nodeserver.go:549-557 | A publish of a target whose mount cannot be read can unmount it and fail, and every publish after it without a harmful failure mounts it again, unless it needs a working path that does not pass its check. |
| `NodeServer.Mounter.EnsureMountPoint` | pkg/azurelustre/nodeserver.go:530-564 | Its logged calls, what they do to the mounts of the path, and its result are those of the specification: test, then read or make the directory, then unmount what cannot be read. |
| `NodeServer.Server.InternalUnmount` | pkg/azurelustre/nodeserver.go:683-697 | Touches the working path only; nothing is mounted there on success, and a failure is accounted for. |
| `NodeServer.Server.InternalMount` | pkg/azurelustre/nodeserver.go:626-681 | A sequence of the steps of the interleaving model that ends with the working mount made, with the given options, or in failure. |
| `NodeServer.Server.CreateSubDir` | pkg/azurelustre/nodeserver.go:566-589 | The same up to the unmount of the working path, which runs whether or not the directory was made; the directory made is that of the sub-directory below the working path, and every mount has the given options. |
| `NodeServer.GetMountOptions` | pkg/azurelustre/nodeserver.go:210-228 | Read-only exactly when requested or among the flags; a read-only request puts "ro" first and drops it from the flags. |
| `NodeServer.OptionsMeaning` | pkg/azurelustre/nodeserver.go:210-228 | The options are the flags, or for a read-only request "ro" once, at the front, and the other flags with their multiplicity. |
| `NodeServer.Server.MountSource` | pkg/azurelustre/nodeserver.go:91-121 | The source is the address, "@tcp:/" and the filesystem, or the interpolated sub-directory joined to that, strictly below it; for an address without slash its components are the address with "@tcp:", "lustrefs" and those of the sub-directory. InvalidArgument only if what the sub-directory becomes is no strict subpath. |
| `NodeServer.Server.NodePublishVolume` | pkg/azurelustre/nodeserver.go:38-181 | Every refusal with its error and without a mounter call; otherwise the logged calls are a sequence of steps of the interleaving model, and the call fails, with Internal, exactly when it needs a working path that does not pass its check or a logged call other than the deferred unmount failed. Success means that the last step mounted the source on the target with the options or met a mount there; the source is that of MountSource; the sub-directory was made exactly when there is one and the volume is writable, and is the directory the source names; otherwise only the target was touched. Every mount has the options of the request, with "ro" if it is read-only. The lock on volume and target is held while the mounter is called and released on every path. |
| `NodeServer.Server.NodeUnpublishVolume` | pkg/azurelustre/nodeserver.go:267-318 | Likewise for unpublish: it touches the target only, and success means nothing is mounted there; refused without a step exactly for a missing ID or target or a held lock. |
| `NodeServer.Server.UnpublishHeld` | pkg/azurelustre/nodeserver.go:302-345 | The mounter is called only with the lock on volume and target held, on the target alone; success exactly when the cleanup succeeded. |
| `NodeServer.WorkingPathsAreValid` | pkg/azurelustre/nodeserver.go:595-607 | Targets that pass the check, differ in their components and lie outside the working directory have different working paths, none of them a target. |

## Left out

- `NewDriver`, `Run`, `pkg/csi-common`, the plugin's main function, identity and version code: set-up, transport and
  straight-line answers.
- The Azure SDK clients, pagers, pollers and credentials: only their answers appear, as finite sequences of pages and
  as classified errors. A client that is nil for sizes or usage appears as a failing answer.
- `NodeServer.Mounter.EnsureMountPoint`: does not model directory contents or kernel mounting; a directory is read or made or not, and a mount is an entry of the table.
- `NodeServer.Server.NodePublishVolume`: the options are logged with the mount calls and not kept in the table; the mock-mount mode and the removal of a target that could not be mounted are not modelled.
- `Controller.Driver.CreateVolume`: the checks of capabilities, secrets and content sources come in as one error; negative capacities are covered by the code but by no theorem.
- `Skus.ReadCapabilities`: capability values come in as already parsed numbers or as unreadable.
- `ProvisionerRuns.RetryProgress`: the caller's retries are a given sequence of calls; backoff is not modelled.
- The kernel module lock: internal unmounting does not take it, so it excludes nothing that matters to the mount table.
- Exclusion between CreateVolume and DeleteVolume or between controller replicas: the keys differ and the locks are per process.
- Unicode case folding and white space beyond ASCII, log messages and error texts beyond the three markers, and the
  regular expression engine: the two expressions used are predicates here.
- `NodeGetVolumeStats`, volume capability validation, metrics, `LockMap`, the GiB conversions and the fake mounter: easy members.
