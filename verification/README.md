# Verification of vault-cert-agent

A Dafny model of the agent that keeps TLS files on disk fresh: it decides from
the files of an earlier run whether a certificate is due, fetches material,
lays it out as PEM files, and reloads the consumers. `dafny verify
dfyconfig.toml` checks everything.

Two levels meet in the middle. At the upper level a *world* is what a reader of
the file system sees: a map from paths to directories, symbolic links, special
files and regular files with bytes and permissions; the decision, the writer and a
whole run are functions of it. At the lower level a disk has names, inodes and
temporary files, every system call may fail, and every state passed through is
recorded; the code is written there as methods, each proved to do what its
upper-level function says and to pass only through states a crash may safely
leave. Which calls fail is an arbitrary function of path and call, so the
theorems hold for every assignment of one outcome to each path and call. File
contents are real bytes: PEM blocks are encoded and decoded by the codec of
`Pem.dfy` and `Base64.dfy`.

| file | what it holds |
|---|---|
| `Wrappers.dfy`, `Bytes.dfy`, `Host.dfy` | result types, bytes, and the host: account lookup, certificate parsing, URL and duration syntax as arbitrary functions |
| `Base64.dfy`, `Pem.dfy` | base 64 (section 4 of RFC 4648) and the textual encoding (section 3 of RFC 7468), round trip and concatenation |
| `Sources.dfy` | from a Vault response to the three PEM blobs |
| `Paths.dfy`, `Names.dfy` | lexical path cleaning; unordered name comparison; the name in a Let's Encrypt path |
| `Ttl.dfy` | the remaining-lifetime test with saturating durations |
| `Config.dfy` | configuration and validation |
| `World.dfy`, `Layout.dfy`, `Commit.dfy` | upper level: visible files and directories, which bytes go where, committing them |
| `Kernel.dfy`, `Writer.dfy` | lower level: system calls and the writer on them |
| `Renewer.dfy`, `Interference.dfy` | the decision and the run; certificates are independent exactly when no file of one is, or lies above, a file of another |
| `Renewal.dfy` | the fixpoint, what a skip leaves, what a stopped write leaves |
| `Leaves.dfy`, `Lifetime.dfy`, `Margins.dfy` | the certificate consumers find; it never expires; for which margins and bundle orders, exactly |
| `Agent.dfy` | the renewer on the disk |
| `Reload.dfy` | the reload manager and its bus connection |

Where the code and its documentation differ, the model follows the code and a
theorem says by how much:

- The comment at `internal/renewer/renewer.go:198-202` says the first block is
  always the leaf. It is for two of the six bundle orders (`CombinedLeaf`); with
  a chain-first order the decision watches the issuer, and an expired leaf is
  skipped (`ExpiredLeafSkipped`); with a key-first order every run fetches
  (`CombinedDecision`, which also covers an empty chain). So the leaf is kept
  from expiring under exactly the orders in which no chain comes first
  (`OrdersExactly`).
- The comment at `internal/renewer/renewer.go:359-362` promises a union of the
  names; the comparison counts. A certificate with exactly the expected names is
  fetched again on every run if and only if the configuration repeats a name
  (`RepeatedNameDiffers`).
- A PKI response with two certificates in its certificate field is fetched again
  on every run where a cert slot is declared (`TwoCertificatesFetch`).
- `README.md:254` says permissions are re-enforced on every run. A run that
  skips touches nothing: permissions are as configured after an error-free run
  exactly when the decision was to write or they were so before
  (`PermsAfterRun`); a changed mode stays while the certificate is fresh
  (`DriftStays`).
- A write that stops halfway can leave files of two materials. It does so
  exactly when a file before the first blocked one needed writing and one from
  there on did (`WriteWhole`); over regular files a killed process can exactly
  when two files need writing (`DeathMayMix`). The next run looks at the leaf file and the chain of
  the fullchain file only (`MixedDecision`, `InterruptedDecision`), so a fresh
  certificate beside the old key is skipped (`InterruptedRenewalSkipped`), and
  so is an expired one left in the fullchain file (`StaleFullchainSkipped`).
- A reload that fails, or that a death after the last commit prevents, is not
  tried again: the next run finds the certificate fresh and skips
  (`FailedReloadForgotten`, `DeathBeforeReloadForgotten`).
- `ensureNewline` promises exactly one trailing newline; it holds unless the
  input already ends in two (`EnsureNewlineExactlyOne`).
- Validation separates certificates by name, not by file: one file set can
  belong to two valid certificates (`NamesDoNotSeparate`). Independence holds
  exactly when no file of one certificate is, or lies above, a file of another
  (`InterferenceExactly`); disjoint files are not enough (`NestedPair`).

## Model

| member | source | states |
|---|---|---|
| Base64.DecodeEncode | internal/source/letsencrypt.go:83 | base 64 text of any bytes decodes to those bytes |
| Base64.ValueIsPosition | internal/renewer/renewer.go:208-215 | the character table is the standard alphabet, position by position |
| Base64.QuantumDecodes | internal/renewer/renewer.go:208-215 | four characters of the alphabet decode to the three bytes of their 24 bits, followed by what the rest decodes to |
| Base64.OnePadDecodes | internal/renewer/renewer.go:208-215 | with one pad three characters decode to the two bytes of their first 16 bits |
| Base64.TwoPadsDecode | internal/renewer/renewer.go:208-215 | with two pads two characters decode to the byte of their first 8 bits |
| Base64.DecodesExactly | internal/renewer/renewer.go:208-215 | exactly the texts of whole quanta over the alphabet decode, the last with up to two pads |
| Pem.RoundTrip | internal/source/letsencrypt.go:76-83 | decoding an encoded block followed by any suffix gives the block and that suffix |
| Pem.Spellings | internal/renewer/renewer.go:203-216 | the byte constants spell the header and end lines and the two labels |
| Pem.LooseBlock | internal/renewer/renewer.go:203-216 | a block is found with its payload broken into lines anywhere, with blanks, tabs and carriage returns in it and after the two lines |
| Pem.BlockSound | internal/renewer/renewer.go:203-216 | nothing else is a block: a header line, base 64 in lines none of which is an end line, and the end line of the same label |
| Pem.DecodeSound | internal/renewer/renewer.go:203-216 | what is decoded is such a block, at the first line where one starts, and nothing is decoded only if none does |
| Pem.WrapShape | internal/source/letsencrypt.go:83 | an encoding has full lines of 64 characters and a last one of at most 64 |
| Pem.BlocksEncodeAll | internal/source/letsencrypt.go:72-94 | concatenated encodings, followed by any text, decode block by block to the same sequence and then the text's blocks |
| Pem.DecodeAppend | internal/renewer/renewer.go:203-216 | the first block of a line-ended text is the first block of the text with anything appended |
| Pem.BlocksAppend | internal/writer/writer.go:142-149 | arbitrary line-ended text followed by any text has exactly the blocks of both, in order, unless the first leaves a block unfinished and the second does not begin with a header line |
| Pem.FinishedEncode | internal/source/letsencrypt.go:83-88 | an encoding leaves no block unfinished |
| Pem.OpenSeam | internal/source/pki.go:86-92 | that condition is needed: a header line and an end line are no block apart and one together |
| Pem.BlocksEnded | internal/source/source.go:74-81 | ending the last line of any text changes none of its blocks |
| Sources.EnsureNewlineBlocks | internal/source/source.go:74-81 | normalising the line ending of any text keeps its blocks |
| Sources.EnsureNewlineExactlyOne | internal/source/source.go:74-81 | the result ends in one newline only if and only if the input did not end in two |
| Sources.SplitBundle | internal/source/letsencrypt.go:72-94 | the loop fails on no block or a foreign block, and else returns the first block and the remaining blocks re-encoded |
| Sources.SplitNormalForm | internal/source/letsencrypt.go:69-94 | leaf and chain hold exactly the input's blocks, the leaf alone its first; splitting their concatenation gives them back |
| Sources.ChainField | internal/source/pki.go:69-93 | succeeds exactly on a non-empty array of strings and joins them line-ended in order |
| Sources.ChainBlocks | internal/source/pki.go:66-93 | the joined chain carries the entries' blocks in order, when no entry leaves a block unfinished in front of text that is no header line |
| Sources.OrdinarySeams | internal/source/pki.go:66-93 | the seams join whenever every entry finishes its blocks, or every entry after the first begins with a header line |
| Sources.PkiMaterial | internal/source/pki.go:46-64 | which responses yield material and the three blobs they yield |
| Sources.PkiPresents | internal/source/pki.go:46-64 | a PKI response with one leaf and any chain, with any text around them, becomes material presenting exactly these certificates, under the same condition on the seams |
| Sources.LetsencryptMaterial | internal/source/letsencrypt.go:36-67 | which responses yield material, with leaf and chain peeled from the bundle |
| Sources.LetsencryptPresents | internal/source/letsencrypt.go:36-67 | any bundle of certificates becomes material presenting exactly these certificates |
| Sources.EncodedPresents | internal/source/letsencrypt.go:83-88 | encodings of any certificates, with any key, are material presenting exactly these certificates |
| Sources.IssuedByPki | internal/source/pki.go:46-93 | a PKI response with these encoded certificates and key yields exactly the material the constructed histories use |
| Sources.IssuedByLetsencrypt | internal/source/letsencrypt.go:36-94 | and so does a bundle of the plugin |
| Ttl.DueWhenFits | internal/renewer/renewer.go:171-183 | with durations within 2^63 nanoseconds the verdict is the exact cross-multiplied test |
| Ttl.DueMonotone | internal/renewer/renewer.go:171-183 | once due, a certificate stays due |
| Ttl.DueImpliesExactly | internal/renewer/renewer.go:171-183 | under saturation a fetch verdict implies the exact one |
| Ttl.DueWhenLong | internal/renewer/renewer.go:171-183 | for lifetimes from 2^63-1 ns on, a fetch is due exactly from threshold times 2^63-1 ns before expiry |
| Ttl.NotDueLeaves | internal/renewer/renewer.go:171-183 | a skip leaves more than threshold times the (saturated) lifetime |
| Paths.CleanRender | internal/writer/writer.go:137 | a cleaned path is recovered from its text, so texts identify paths and cleaning is idempotent |
| Paths.CleanNormal | internal/writer/writer.go:137 | cleaning leaves no empty, dot or slashed part and dot-dot only in front of a relative path |
| Paths.SegmentsDrop | internal/writer/writer.go:137 | an empty segment, a dot, and a name with two dots after it drop out wherever they stand |
| Paths.CleanDoubled | internal/writer/writer.go:137 | doubled slashes in a text change nothing |
| Paths.CleanDots | internal/writer/writer.go:137 | nor do dots between slashes |
| Paths.CleanGoesUp | internal/writer/writer.go:137 | two dots take the name before them away |
| Paths.CleanTrailingSlash | internal/writer/writer.go:137 | a trailing slash changes nothing |
| Paths.CleanAboveRoot | internal/writer/writer.go:137 | going up from the root changes nothing |
| Paths.JoinIsChild | internal/config/validate.go:225-235 | an accepted basename joined to any destination is a direct child of the cleaned destination |
| Paths.PlainExactly | internal/config/validate.go:225-235 | in a rooted directory exactly the accepted basenames land directly inside it |
| Paths.JoinInjective | internal/config/validate.go:196-211 | distinct accepted names give distinct paths, also as texts |
| Paths.FileInIsChild | internal/writer/writer.go:137 | the same for the place a path leads to from the working directory, so relative and rooted destinations are compared as places |
| Paths.FileInTrailingSlash | internal/writer/writer.go:137 | a trailing slash on the destination leads to the same files |
| Names.SortedUnique | internal/renewer/renewer.go:382-391 | two sorted lists with the same members are the same list |
| Names.SlicesEqualUnordered | internal/renewer/renewer.go:382-391 | true exactly when the two lists are equal as multisets |
| Names.LePathFqdnIsLastSegment | internal/renewer/renewer.go:373-380 | the name is the last non-empty segment of the path, empty only when there is none |
| Names.FqdnIs | internal/renewer/renewer.go:373-380 | whatever stands before it up to a slash and however many slashes follow, that name is the one |
| Config.ValidateBasename | internal/config/validate.go:227-235 | accepts exactly the plain file names among non-empty ones |
| Config.ValidateSplitFiles | internal/config/validate.go:184-223 | accepts exactly the blocks whose declared names are plain and pairwise distinct and that declare a leaf-bearing slot |
| Config.ValidateReload | internal/config/validate.go:153-175 | accepts exactly the valid reload settings |
| Config.ValidateCert | internal/config/validate.go:51-127 | accepts exactly the certificates satisfying the declarative predicate |
| Config.ValidateCerts | internal/config/validate.go:34-47 | accepts exactly lists of valid certificates with pairwise distinct names |
| Config.Validate | internal/config/validate.go:15-49 | validation succeeds exactly on the valid configurations |
| Config.ModeMeans | internal/config/validate.go:291-297 | a mode text is accepted for exactly the number whose digits in base 8 it is, within 32 bits |
| Config.OwnerMeans | internal/config/validate.go:279-289 | an owner text is accepted for exactly the two non-empty names around its first colon |
| Config.ValidMeans | internal/config/validate.go:51-127 | what the writer, the sources and the reload manager may rely on in a validated certificate, in the literal words of the configuration |
| Config.ReloadsNamed | internal/config/validate.go:153-175 | neither a unit to reload nor the program of a reload command is blank |
| Config.SettingsMean | internal/config/validate.go:15-49 | a validated threshold is strictly between 0 and 1, there is a certificate, and no two share a name |
| Config.SecretOverHttps | internal/config/validate.go:262-275 | the AppRole secret is sent to an https address with a host only |
| Layout.SplitFiles | internal/writer/writer.go:123-151 | builds the declared slots in writing order, the key slot with its own permissions |
| Layout.SplitLayoutHas | internal/writer/writer.go:139-149 | every declared slot is planned with its own content, fullchain with leaf then chain |
| Layout.SplitLayoutDistinct | internal/config/validate.go:196-211 | the uniqueness of validated names makes the planned files pairwise distinct |
| Layout.BundleParts | internal/writer/writer.go:178-198 | fills the three blobs in the configured order or refuses an unknown order |
| Layout.OrderNamesParts | internal/writer/writer.go:208-215 | each order's name spells its three parts in order, each part once |
| Layout.DefaultOrder | internal/writer/writer.go:180-182 | without an order a bundle is certificate, chain, key |
| Layout.EveryOrderNamed | internal/config/validate.go:249-256 | each of the six orders of the three parts has its name among the accepted ones |
| Layout.PlanWithin | internal/writer/writer.go:98-174 | a write concerns only the certificate's own files |
| Layout.ValidPlan | internal/writer/writer.go:44-82 | for a validated certificate the planning cannot fail on format, mode, owner syntax, bundle order or files block; it succeeds exactly when the accounts exist; a leaf path exists; planned files are distinct |
| Layout.LeafPathPlanned | internal/writer/writer.go:60-85 | the leaf path is among the planned files and receives the text that starts with the certificate blob |
| World.ReadExactly | internal/writer/writer.go:248-270 | reading succeeds exactly on a regular file when none of the three calls fails, and reports a missing file exactly when nothing is there |
| Paths.RelativePlace | packaging/vault-cert-agent.service:13-19 | a relative name is a place in the working directory, which is the root under the shipped unit, a rooted one is not |
| World.MadeOnly | internal/writer/writer.go:102-104 | making a directory changes nothing but missing directories on the way to it, each of which could be made, and on success it is there |
| World.MakeExactly | internal/writer/writer.go:102-104 | making a directory succeeds exactly when everything on the way is a directory or missing and making the missing ones does not fail |
| World.MakeGrown | internal/writer/writer.go:102-104 | whether a directory can be made is the same in a state in which some that could be made already are |
| Commit.CommitFileEffect | internal/writer/writer.go:226-246 | a commit touches one path, passes through three possible states, and on success has bytes, mode and owner in place with an exact changed flag |
| Commit.CommitFileLocal | internal/writer/writer.go:226-246 | a commit depends on nothing but its own path |
| Commit.CommitAllSucceeds | internal/writer/writer.go:111-120 | on success all files are in place, and changed means exactly that some file was absent or had other bytes |
| Commit.CommitAllPrefix | internal/writer/writer.go:111-120 | however the loop ends, a prefix of the files is complete, one is in a commit state, the rest is untouched |
| Commit.OldOrNew | internal/writer/writer.go:111-120 | at any moment a planned path holds its old node or its new bytes |
| Commit.NonRegularRefused | internal/writer/writer.go:223-265 | a symbolic link or special file at any path fails the write and stays as it is |
| Commit.CommitAllCut | internal/writer/writer.go:111-120 | the loop succeeds exactly when no file is blocked, and otherwise stops at the first blocked one, told from the state and the faults before; files before it hold new bytes, the others old ones |
| Commit.PrefixCut | internal/writer/writer.go:111-120 | so does a process killed among the commits, at some file |
| Commit.WayCut | internal/writer/writer.go:44-121 | a write stopped anywhere, also while directories are made, leaves a cut through its files |
| Commit.WriteWhole | internal/writer/writer.go:44-121 | once the directory can be made, the files are after a write all new or all old if and only if none before the first blocked file needed writing or none from there on did |
| Commit.DeathMayMix | internal/writer/writer.go:111-120 | over regular files being killed can leave files of two materials if and only if two files need writing |
| Commit.CommitAllUnhindered | internal/writer/writer.go:111-120 | without failing calls and with only regular files in the way the write succeeds |
| Commit.WriteSucceeds | internal/writer/writer.go:41-58 | a successful write puts every planned file in place, moves nothing else but the missing directories above, and reports change exactly |
| Commit.WriteIdempotent | internal/writer/writer.go:41-58 | writing the same material again reports no change and leaves content, mode, owner and directories identical |
| Commit.EarlyFailures | internal/writer/writer.go:44-58 | how a write fails before its first commit, in order, and what it has touched by then |
| Commit.WriteFrame | internal/writer/writer.go:44-58 | a write, failing or not, changes no file outside the certificate's own; at most directories appear above them where nothing was |
| Commit.WriteLocal | internal/writer/writer.go:44-58 | a write depends on the certificate's own files and on which directories above them are there or could be made |
| Kernel.TempNameExists | internal/writer/writer.go:279 | there is always a free temporary name in the directory |
| Writer.StagedReplacing | internal/writer/writer.go:279-308 | while the temporary file exists, the path, every other name and every old inode are as before |
| Writer.RenamedReplacing | internal/writer/writer.go:309-313 | the rename makes the path lead to the complete new file and removes the temporary name |
| Writer.FillTemp | internal/writer/writer.go:289-304 | write, sync, chmod, chown on the open file, stopping at the first failure, through safe states only |
| Writer.AtomicWrite | internal/writer/writer.go:277-314 | all or nothing; every state on the way shows the old entry or the complete new file, old inodes and other names untouched, at most one temporary file, none on return if removing works |
| Writer.EnforcePerms | internal/writer/writer.go:321-341 | does what its specification says on the pinned inode, through commit states only |
| Writer.CommitFile | internal/writer/writer.go:226-246 | does what its specification says, through commit states of this one path only |
| Writer.ReadRegularFile | internal/writer/writer.go:248-270 | reads what is seen at the path, refusing links and special files |
| Writer.CommitFiles | internal/writer/writer.go:111-120 | does what its specification says, and every state on the way is a prefix of the list of commits |
| Writer.MkdirAll | internal/writer/writer.go:102-104 | makes the directories as specified, from the top down, through states in which some of them are made |
| Writer.CommitPlan | internal/writer/writer.go:110-120 | commits the files in the directory made for them, through states on the way of the write |
| Writer.StepWithin | internal/writer/writer.go:111-120 | a commit state of the next file over a completed prefix is a prefix state of the list |
| Writer.WriteSplit | internal/writer/writer.go:98-121 | does what its specification says, lists the paths in order, through states on the way only |
| Writer.WriteCombined | internal/writer/writer.go:153-174 | the same for the bundled file |
| Writer.Write | internal/writer/writer.go:44-58 | the same for either format |
| Renewer.CheckLeafOnly | internal/renewer/renewer.go:283-303 | accepts exactly texts whose first block is a certificate and which have exactly one certificate block |
| Renewer.CheckLeafPlusChain | internal/renewer/renewer.go:307-327 | accepts exactly texts whose first block is a certificate and which have at least two certificate blocks |
| Renewer.AuditPartition | internal/renewer/renewer.go:283-327 | the two shapes never hold together, and one holds exactly when the first block is a certificate |
| Renewer.RepeatedNameDiffers | internal/renewer/renewer.go:359-371 | for a certificate without repeated names that carries the expected set, the comparison differs if and only if the expected list repeats a name |
| Renewer.AltNamesMean | internal/renewer/renewer.go:359-380 | the names compared are the last name of the configured path, however its slashes are written, and the configured ones, as multisets |
| Renewer.SkippedNames | internal/renewer/renewer.go:185-190 | a Let's Encrypt certificate that is skipped carries exactly these names |
| Renewer.SkipFindsEveryFile | internal/renewer/renewer.go:231-281 | a skip means that every file of the certificate is there as a regular file that could be opened, so a missing slot always fetches |
| Renewer.ForcedFetches | internal/renewer/renewer.go:142-144 | a forced decision never skips |
| Renewer.ReasonMeans | internal/renewer/renewer.go:141-169 | forced is reported exactly for a forced run, a missing certificate only where nothing is, an unparseable one only where something is or could not be opened |
| Renewer.ReasonTells | internal/renewer/renewer.go:171-196 | an expiry reported is one, a fraction reported is of a certificate that has not expired, changed names of a Let's Encrypt one whose names differ |
| Renewer.DryRunChangesNothing | internal/renewer/renewer.go:110-113 | a dry run leaves every file and directory as it is and reloads nothing |
| Renewer.DecideLocal | internal/renewer/renewer.go:141-196 | the decision depends on nothing but the certificate's own files |
| Renewer.ProcessLocal | internal/renewer/renewer.go:95-134 | outcome, reload and final files of processing a certificate depend on its own files and on which directories above them are there or could be made |
| Renewer.ProcessFrame | internal/renewer/renewer.go:95-134 | processing a certificate changes only its own files; at most directories appear above them |
| Renewer.NamesDoNotSeparate | internal/config/validate.go:34-47 | valid certificates with distinct names can share all their files |
| Renewer.RunFrame | internal/renewer/renewer.go:84-93 | a run leaves alone whatever none of its certificates owns; at most directories appear where nothing was |
| Renewer.RunIndependent | internal/renewer/renewer.go:81-93 | when no file of one certificate is, or lies above, a file of another, each certificate's files end up as if it had been processed alone, whichever others fail |
| Interference.ClashSpoils | internal/renewer/renewer.go:81-93 | a file of one certificate that is, or lies above, a file of another: a run from nothing, with material as the engines issue it, leaves one of the two without a file it gets alone |
| Interference.InterferenceExactly | internal/renewer/renewer.go:81-93 | valid certificates with straight destinations end up as if processed alone in every run, from every state without symbolic links above their files, if and only if no file of one is, or lies above, a file of another |
| Interference.NestedPair | internal/writer/writer.go:102-104 | a bundle at the place of another certificate's directory: no common file, and not independent |
| Interference.RunTree | internal/writer/writer.go:98-174 | runs keep the names a tree: whatever is there stands in directories |
| Renewer.RunCounts | internal/renewer/renewer.go:81-134 | under the same condition the returned count is the number failing alone, and the reloads are, in configuration order, those whose write alone succeeds and changes something |
| Renewal.FullchainBlocks | internal/writer/writer.go:142-149 | the fullchain bytes carry exactly the leaf block followed by the chain blocks |
| Renewal.WrittenContents | internal/writer/writer.go:98-174 | once every commit of a write is done each declared slot, or the bundle, holds its content |
| Renewal.WrittenPerms | internal/writer/writer.go:343-385 | after a successful write every file has for its mode the number the configured text is in base 8, and for its owner the ids of the two names around the first colon; the key file each override where set |
| Renewal.MixedDecision | internal/renewer/renewer.go:141-196 | for slots of different materials the exact skip condition: the leaf file and the chain of the fullchain file decide, the key and the ca file do not |
| Renewal.RenewalFixpoint | internal/renewer/renewer.go:141-196 | once material is written, in any layout in which the leaf comes first, a later decision skips if and only if the leaf parses, the lifetime test passes, a declared fullchain has a chain, and Let's Encrypt names match as multisets |
| Renewal.LetsencryptFixpoint | internal/source/letsencrypt.go:36-94 | the same starting from the plugin's bundle text |
| Renewal.PkiFixpoint | internal/source/pki.go:46-93 | the same starting from the PKI engine's response texts |
| Renewal.BlobDecision | internal/renewer/renewer.go:141-196 | for any material whose seam joins the exact skip condition in terms of the blocks of its certificate and chain texts |
| Renewal.TwoCertificatesFetch | internal/renewer/renewer.go:283-303 | a certificate text with two certificates makes every run with a cert slot fetch |
| Renewal.GoodRunSettles | internal/renewer/renewer.go:95-134 | from any state of regular files one run that fetches while nothing but perhaps the reload fails ends with no other error, and later runs that find the certificate fresh skip and change nothing |
| Renewal.SteadyState | internal/renewer/renewer.go:95-134 | after a run whose write succeeded, whatever its reload did, a run that finds the certificate fresh fetches, reloads and changes nothing |
| Renewal.RunSteadyState | internal/renewer/renewer.go:81-93 | over certificates with files apart, once all writes succeeded, a later run that finds each one fresh counts no failure, reloads nothing and leaves the whole file system as it is |
| Renewal.FailedReloadForgotten | internal/renewer/renewer.go:122-133 | a run whose reload fails fails, and the next fresh run skips without reloading |
| Renewal.DeathBeforeReloadForgotten | internal/renewer/renewer.go:110-133 | so does the run after a death between the last commit and the reload |
| Renewal.MovedSlotFetches | internal/renewer/renewer.go:226-255 | moving a file name between the cert and fullchain slots always forces a fetch |
| Renewal.OrdersByFirstPart | internal/writer/writer.go:208-215 | which orders begin with the leaf, the chain, the key |
| Renewal.CombinedLeaf | internal/renewer/renewer.go:198-216 | what is read back as leaf from a written bundle: the leaf, the first chain certificate or nothing, by order and by whether there is a chain |
| Renewal.CombinedDecision | internal/renewer/renewer.go:141-196 | the exact skip condition for bundles under every order, with or without a chain |
| Renewal.ExpiredLeafSkipped | internal/renewer/renewer.go:198-216 | with a chain-first order an expired leaf is skipped while its issuer is fresh |
| Renewal.PermsAfterRun | internal/renewer/renewer.go:103-107 | after an error-free run every file has the mode and owner the configuration texts stand for exactly when the decision was to write, outside a dry run, or they had them before |
| Renewal.DecideIgnoresPerms | internal/renewer/renewer.go:141-196 | the decision is the same for files that differ in permissions only |
| Renewal.DriftStays | internal/renewer/renewer.go:103-107 | a file whose mode was changed while the certificate is fresh stays wrong after a successful run |
| Renewal.CutSlots | internal/writer/writer.go:98-121 | a stop after n files leaves new material in the slots before it and old material behind it |
| Renewal.InterruptedDecision | internal/renewer/renewer.go:141-196 | after a write stopped anywhere, by a failure or a death, the next decision skips if and only if the leaf file is fresh by itself and a declared fullchain file has a chain |
| Renewal.InterruptedRenewalSkipped | internal/writer/writer.go:112-116 | a write failing after the certificate slot leaves new certificate and old key, and the next decision skips |
| Renewal.StaleFullchainSkipped | internal/renewer/renewer.go:141-196 | a write stopped between the cert and the fullchain file leaves an expired leaf in the latter, and the decision skips |
| Leaves.LeafDuringWrite | internal/writer/writer.go:98-174 | at any moment of a write, also while directories are made, the leaf path holds what it held or the new text |
| Leaves.TextLeaf | internal/writer/writer.go:98-215 | in every layout and order the text planned for the leaf path holds the certificate issued |
| Leaves.SkippedLeaf | internal/renewer/renewer.go:141-196 | a skip means that the leaf on disk is above the threshold, wherever no chain stands in front of it |
| Leaves.LeafFilesExactly | internal/writer/writer.go:68-85 | the leaf path is the only file with the leaf exactly when not both a cert and a fullchain file are declared |
| Lifetime.RunLeaf | internal/renewer/renewer.go:95-134 | a run that completes, fails or dies leaves the old leaf or a newly issued one, in every layout and whatever happens to other files; without error one above the threshold, if the leaf comes first, was issued, or is new |
| Lifetime.RunLeadsEach | internal/renewer/renewer.go:81-93 | a run over certificates with files apart is such a run for each of them |
| Lifetime.DuringRun | internal/renewer/renewer.go:81-93 | while it is busy with one of them every one is on its own way |
| Lifetime.MarginLasts | packaging/vault-cert-agent.timer:5-12 | with at most k failures in a row the time to expiry never falls to one gap |
| Lifetime.NeverExpires | internal/renewer/renewer.go:171-183 | over any sequence of runs, failing or dying anywhere, each over at most a gap after the one before began and at most k failures in a row, among any changes to other files, the leaf a reader finds is unexpired at every instant from the first success until a gap after the last run began, if threshold times lifetime is at least k + 1 gaps; in every layout and order as long as no chain stands in front of the leaf |
| Lifetime.EveryInstant | packaging/vault-cert-agent.timer:5-12 | that covers every instant of the time line |
| Margins.MarginExactly | internal/renewer/renewer.go:171-183 | the bound is exact: for certificates of a given margin, under every layout in which no chain comes first, no history lets the leaf expire if and only if the margin is at least k + 1 gaps |
| Margins.ChainFirstExpires | internal/writer/writer.go:208-215 | with a chain in front the leaf can expire without a single failure, whatever its margin |
| Margins.OrdersExactly | internal/writer/writer.go:208-215 | a sufficient margin keeps the leaf from expiring under exactly the layouts in which no chain comes first |
| Margins.DayCertificateMargin | packaging/vault-cert-agent.timer:5-8 | under the shipped timer and threshold, with runs of at most six minutes, 24-hour certificates survive every history of at most k failures in a row exactly for k up to four |
| Agent.AuditOnDiskFiles | internal/renewer/renewer.go:231-255 | passes exactly when every declared slot has its shape on disk |
| Agent.LoadLeafFrom | internal/renewer/renewer.go:203-216 | the certificate in the first block of the file, or why there is none |
| Agent.AltNamesChange | internal/renewer/renewer.go:363-371 | whether expected and carried names differ as multisets |
| Agent.DecideOn | internal/renewer/renewer.go:141-196 | decides as specified over the visible files |
| Agent.ProcessOn | internal/renewer/renewer.go:95-134 | processes as specified; a skip touches nothing; every state on the way is one a death may leave |
| Agent.RunOn | internal/renewer/renewer.go:84-93 | the loop over certificates does what the specified run does, and with files apart every state on the way has each certificate's files on their own way |
| Reload.OpensMinusCloses | internal/reload/reload.go:49-54 | in an orderly history opens minus closes is one exactly while a connection is open |
| Reload.JobsOnOpenBus | internal/reload/reload.go:89-109 | every job of an orderly history runs on the connection open at that point |
| Reload.MethodTable | internal/reload/reload.go:127-151 | the table knows exactly the five configurable texts, and no two share a call |
| Reload.MethodWords | internal/reload/reload.go:127-151 | the words of a method say what its call may do: reload, restart, start a stopped unit |
| Reload.DefaultMethod | internal/reload/reload.go:89-95 | without a method units are reloaded or restarted and stopped ones left alone |
| Reload.ConfiguredMethod | internal/reload/reload.go:89-95 | a configured method is the one used |
| Reload.SkippedCountsAsDone | internal/reload/reload.go:160-167 | a reload of units succeeds exactly when every unit has its job and each is reported done or skipped |
| Reload.ValidMethodKnown | internal/config/validate.go:170-173 | a validated certificate has a known reload method |
| Reload.Manager.constructor | internal/reload/reload.go:38-45 | a new manager holds no connection |
| Reload.Manager.Connect | internal/reload/reload.go:111-121 | reuses the held connection, opens one otherwise, and after a refusal holds none and can retry |
| Reload.Manager.RunSystemdJob | internal/reload/reload.go:153-171 | one job on the held connection, successful exactly when it reports done or skipped |
| Reload.Manager.ReloadSystemd | internal/reload/reload.go:89-109 | jobs for a prefix of the units in order; success exactly when every unit's job ended well, otherwise the last job issued is the failing one |
| Reload.Manager.Reload | internal/reload/reload.go:59-67 | units before command; a command or nothing never opens a connection |
| Reload.Manager.Close | internal/reload/reload.go:49-54 | closes the held connection if any |
| Reload.Drive | internal/reload/reload.go:49-67 | over any sequence of calls opens minus closes says whether a connection is held, and without units none is opened |

## Left out

- Vault client, AppRole login, retries and request parameters: a fetch is an arbitrary function from certificate to material or error.
- X.509 parsing: an arbitrary partial function from the bytes of a block to validity and names.
- URL and duration syntax, account lookup: arbitrary functions of the host.
- HCL decoding, defaults, flags, logging and message texts: library glue; errors are one constructor per kind.
- Pem.RoundTrip: blocks with header lines, which the library decodes and encodes again, count as text here; and white space at the end of a line is dropped in any mix, where the library drops one carriage return before the line feed, then blanks and tabs.
- Sources.SplitBundle: for the same reason a bundle's blocks with header lines are passed over, where the code copies them.
- Floating-point rounding in the fraction test: the fraction is an exact rational.
- Symbolic links among parent directories: one is taken to lead to a directory of its own; `Interference.InterferenceExactly` speaks of states without them.
- The mode of directories. And the difference between a missing file and one below something that is no directory: only the logged reason of a fetch depends on it.
- Names the file system itself refuses, for length or a zero byte.
- Hard links: every name has its own inode.
- A temporary file's random name hitting a configured file whose name itself begins with `.vault-cert-agent-`: assumed not to happen. No configuration is excluded.
- Other processes changing a certificate's own files; other files may change in any way.
- Power loss and directory syncing: a crash is the death of the process at a system call.
- Translation of the mode number to permission bits by the library, and chown clearing bits.
- Destinations with `..` in them, and combined ones whose text ends in a slash or a dot: paths are known by their cleaned form; `Interference.InterferenceExactly` and the theorems of `Margins.dfy` ask for neither (`Layout.Straight`).
- Running `reload_command`, D-Bus and polkit: outcomes are arbitrary, the issued commands and jobs are recorded.
- A call repeated on one path within a run with different outcomes: making a directory two certificates share, or files of overlapping certificates; each path and call has one outcome in a run.
- Lifetime.NeverExpires: asks for no chain in front of the leaf in what is issued; `Margins.ChainFirstExpires` shows that with one the leaf can expire.
