# Verification of the catalogue's helper scripts

A Dafny model of the algorithms in this package catalogue's helper scripts, with proofs of what they are for. Each
module models one script, or one part of one, in the form the script has: classes and loops where it changes things
step by step, functions where it computes, and step systems where several processes share files. To verify:
`dafny verify dfyconfig.toml`.

| module | script | main results |
|---|---|---|
| `Whence` | sort-firmware.py, reading WHENCE | the one-pass reader credits every listing with exactly what the licence rule owes it |
| `Accounting` | sort-firmware.py, assigning and accounting | `account` reports exactly the issues there are; a clean release licenses everything it ships |
| `MessagePack` | buildroot-resolver.py, the protocol | encoding and decoding undo each other at any offset; the encoding is the shortest |
| `DnsNames` | buildroot-resolver.py, DNS names | decoding ends on every message; exactly when it agrees with RFC 1035 |
| `SdkClosure` | three SDK closure searches | the memoised, the all-paths and the cycle-tolerant search agree, exactly when they should |
| `DebianStore` | prepare.py, the root store | over every schedule with crashes, complete records are sound and written once |
| `AptRequests` | prepare.py and reference.py, package requests | one canonical list however requests are written; printing and reading undo each other |
| `Overlay`, `OverlayLinks` | reference.py, placing payload | any order of the same entries builds the same tree; exactly which links can be led out of usr |
| `AmdContainers` | validate-amd-ucode.py | accepted files are exactly the serialisations of containers; joining is safe |
| `CertData`, `RootStore`, `Pem` | certdata-to-pem.py | parsing is exact; the conversion does not depend on order; the bundle reads back as exactly the trusted certificates |
| `PtyDrive` | pty-drive.c | exactly when expects match their texts in order, however output is cut into reads |
| `RustLicences`, `LicenceTerms` | collect-rust-licences | the exact crate closure; when the printed expression means the conjunction, and when not |
| `Snapshot` | snapshot-repository.py | visible snapshots are of one generation and never replaced |

`Prelude` and `PyText` hold what the modules share.

Eight properties are false of the code as it stands. Each has a lemma with an input where it fails and one that says
exactly when it holds:

- *A path without a licence of its own reaches one through targets listed earlier.* A link may be licensed by a target
  listed after it (`Accounting.LicensedByLaterListing`). In a clean account the property holds of a family exactly when
  each of its links without a licence is listed after its target (`Accounting.ReachesOwnExactly`); in general all hops
  but the last are earlier (`Accounting.CleanReaches`).
- *`decode_name` agrees with RFC 1035.* Length octets the standard reserves are read as lengths
  (`DnsNames.ReservedLengthIsRead`), and more than 33 pointers are refused (`DnsNames.LongChainIsRefused`). It agrees
  exactly on the messages that meet neither (`DnsNames.AgreesExactly`).
- *A job's evidence matches its marker.* A crash can leave it torn (`DebianStore.CrashTearsEvidence`,
  `DebianStore.TornEvidenceIsReached`). It tears exactly in the steps that copy a file other than the marker names
  (`DebianStore.TornExactly`, over whole runs `DebianStore.TornByTearing`); what is torn is refused
  (`DebianStore.LoadsWhatMatches`). A target always prepared for one request, without replay, is never torn and loads
  (`DebianStore.SteadyEvidenceLoads`).
- *`combined` means the conjunction.* Some choices get no parentheses though they need them
  (`LicenceTerms.BracketedChoiceIsUnclear`, `LicenceTerms.TouchingOrIsUnclear`, and the declared licences
  `LicenceTerms.UnclearLicences`), and are printed wrongly (`LicenceTerms.WrongConjunction`). The exact condition is
  `LicenceTerms.Clear` (`LicenceTerms.ClearExactly`).
- *Visible snapshots are of one generation.* A publisher that dies half way lets readers freeze a mixed one
  (`Snapshot.HalfPublished`, `Snapshot.MixedIsSeen`); letting go of the lock is harmless exactly when the parts are in
  one generation (`Snapshot.HarmlessExactly`).
- *A text that occurs is found.* The empty text is not, while there is no output at all
  (`PtyDrive.EmptyExpectOfNothing`); everything else that occurs is (`PtyDrive.HitsWhatOccurs`,
  `PtyDrive.FoundWhenInOrder`).
- *Lines with the same clauses ask the same, and a line may be cut at a comma.* A star or nothing is a constraint alone
  and a fault beside clauses: `ab *` is accepted, also twice, and `ab *,*` is not (`AptRequests.StarTwice`). For all
  other constraints both hold (`AptRequests.SameClauses`, `AptRequests.CutLine`).
- *An accepted link leads below usr.* Its text does, but a link on its way can lead it out
  (`OverlayLinks.TwoLinksLeadOut`). Accepted entries can lead a link out exactly when its text names, before
  the link itself, a place below usr that is not above the link (`OverlayLinks.LedOutExactly`). A link that meets no
  other leads where its text points (`OverlayLinks.LeadsByText`), and when all links climb before they descend, all of
  them stay below usr (`OverlayLinks.ClimbingFirstStays`).

SHA-256 is an injective abstract digest in `DebianStore` and an arbitrary function in `RootStore`. Python strings are
sequences of characters, bytes are numbers from 0 to 255, files and directories are maps, and integers are unbounded
except where a format fixes their width.

## Model

| member | source | states |
|---|---|---|
| `Whence.FirstYieldIsGoverning` | org.kernel.linux-firmware/tools/sort-firmware.py:82-93 | What a listing is owed is the yield of the first licence run after it that yields anything: the first in the same section, skipping runs that yield nothing, never beyond a rule of dashes; and it is nothing exactly when no such run exists |
| `Whence.RulesSeparate` | org.kernel.linux-firmware/tools/sort-firmware.py:82-93 | Whatever follows a rule of dashes leaves what is owed before it unchanged |
| `Whence.ReadLicensesOwn` | org.kernel.linux-firmware/tools/sort-firmware.py:90-93 | A block credits only paths it lists itself |
| `Whence.Reader.TakeWords` | org.kernel.linux-firmware/tools/sort-firmware.py:107-113 | Each declaration that a pattern recognises adds its item; the others are reported against the current driver, in order |
| `Whence.Reader.CreditGroup` | org.kernel.linux-firmware/tools/sort-firmware.py:114-117 | The pending items go to every member of the group and to nobody else, and the group is empty after it |
| `Whence.Reader.CloseGroup` | org.kernel.linux-firmware/tools/sort-firmware.py:103-118 | Closing credits the group with what its run yields, words counting only where no vendor text is cited; it reports what it does not recognise and forgets the run; with nothing pending the group stays |
| `Whence.Reader.NewGroupIfLicensed` | org.kernel.linux-firmware/tools/sort-firmware.py:120-122 | A listing ends the run before it only when that run said something |
| `Whence.Reader.TakeRule` | org.kernel.linux-firmware/tools/sort-firmware.py:127-129 | A rule of dashes settles all that is open: no group and no run go on beyond it |
| `Whence.Reader.TakeDriver` | org.kernel.linux-firmware/tools/sort-firmware.py:133-137 | A Driver: line opens a block to which nothing is owed yet, and keeps the open group |
| `Whence.Reader.TakeListing` | org.kernel.linux-firmware/tools/sort-firmware.py:140-154 | A listing joins its block and waits for the next run |
| `Whence.Reader.TakeProse` | org.kernel.linux-firmware/tools/sort-firmware.py:155-161 | Any other line adds the texts it cites, or its declaration, to the run |
| `Whence.Reader.Read` | org.kernel.linux-firmware/tools/sort-firmware.py:81-164 | The one-pass reader refines the rule: the blocks list exactly what the lines list in order, each path of a block holds the union of what every line listing it there is owed, the problems are the unrecognised declarations in order, and the sections are the lines between rules |
| `Accounting.Assigner.Take` | org.kernel.linux-firmware/tools/sort-firmware.py:203-210 | Taking a listing adds its marks, its section and, with no marks, its path among the unlicensed |
| `Accounting.Assigner.AssignFile` | org.kernel.linux-firmware/tools/sort-firmware.py:222-234 | A path pattern outranks the driver match; an unclaimed file is recorded as such |
| `Accounting.Assigner.AssignLink` | org.kernel.linux-firmware/tools/sort-firmware.py:235-255 | A link follows the family that last took its target, else its own path, else the driver; it carries its own licence, else its target's in the block, else the note that it relies on the target |
| `Accounting.Assigner.DropNotes` | org.kernel.linux-firmware/tools/sort-firmware.py:256-257 | The notes that links rely on their targets are dropped and nothing else |
| `Accounting.Assigner.Assign` | org.kernel.linux-firmware/tools/sort-firmware.py:195-258 | After assign, owners, families and unclaimed listings are those the listings define one by one |
| `Accounting.GotByTaking` | org.kernel.linux-firmware/tools/sort-firmware.py:203-255 | A family's record holds exactly the marks, unlicensed paths, files and links its own listings brought it |
| `Accounting.UnclaimedAreLost` | org.kernel.linux-firmware/tools/sort-firmware.py:229-231 | A listing is unclaimed exactly when no family claims it at its turn |
| `Accounting.Derive` | org.kernel.linux-firmware/tools/sort-firmware.py:265-281 | The texts cited, the SPDX terms they map to, and one problem for each licence text that is not mapped |
| `Accounting.CrossingLinks` | org.kernel.linux-firmware/tools/sort-firmware.py:309-313 | Exactly the links of a family whose target is another family's in the end |
| `Accounting.Unmatched` | org.kernel.linux-firmware/tools/sort-firmware.py:314-316 | Exactly the packaged families that took nothing |
| `Accounting.Report` | org.kernel.linux-firmware/tools/sort-firmware.py:284-317 | The reported issues are exactly those that hold of what assign recorded |
| `Accounting.Account` | org.kernel.linux-firmware/tools/sort-firmware.py:284-317 | account reports exactly the issues of the release, said of the listings themselves |
| `Accounting.IssueRecorded` | org.kernel.linux-firmware/tools/sort-firmware.py:284-317 | An issue of the records is an issue of the listings and conversely |
| `Accounting.CleanAccounts` | org.kernel.linux-firmware/tools/sort-firmware.py:284-317 | When nothing is reported every listing is claimed, no link leaves its family, and each packaged family declares exactly its derived terms |
| `Accounting.CleanReaches` | org.kernel.linux-firmware/tools/sort-firmware.py:250-255 | In a clean account everything a packaged family takes leads, through finitely many targets listed earlier and owned by the family, to a listing with items in the end: its own, or, for a link, those of its target in the block, which may be listed later |
| `Accounting.ReachesOwnExactly` | org.kernel.linux-firmware/tools/sort-firmware.py:235-255 | In a clean account everything a packaged family takes reaches, through earlier-listed targets of the family, a listing with a licence of its own, exactly when each of its links without one is listed after its target |
| `Accounting.CitedTargetIsOurs` | org.kernel.linux-firmware/tools/sort-firmware.py:250-255 | Where that chain ends at a link licensed by its target, the target is listed in the same block and is the family's in the end |
| `Accounting.Check` | org.kernel.linux-firmware/tools/sort-firmware.py:351-360 | Reading and accounting together report nothing exactly when the release has no issue |
| `Accounting.CheckedIsLicensed` | org.kernel.linux-firmware/tools/sort-firmware.py:351-360 | In a release the check passes, whatever a packaged family takes leads through links it owns to a path WHENCE itself licenses in the block that lists it |
| `Accounting.LicensedByLaterListing` | org.kernel.linux-firmware/tools/sort-firmware.py:250-252 | A concrete clean account in which a link is licensed by a target that is listed after it: the last hop need not be earlier |
| `MessagePack.Packer.Pack` | _peiroot_/buildroot-resolver.py:42-100 | pack appends exactly the encoding of a value it can encode, and reports an error exactly for any other |
| `MessagePack.Unpack` | _peiroot_/buildroot-resolver.py:103-146 | unpack computes the decoding at its position, with an end beyond the start and inside the buffer |
| `MessagePack.RoundTrip` | _peiroot_/buildroot-resolver.py:42-146 | Wherever the bytes pack wrote for a value stand in whatever buffer, unpack returns the value and their exact end |
| `MessagePack.Shortest` | _peiroot_/buildroot-resolver.py:42-146 | Whenever unpack reads a value pack can encode, pack needs no more bytes than were consumed, and as many only if they are the same bytes |
| `MessagePack.DecodedIsProper` | _peiroot_/buildroot-resolver.py:113-146 | Whatever unpack returns is well-formed text throughout, with distinct keys in every map |
| `DnsNames.EncodeName` | _peiroot_/buildroot-resolver.py:178-185 | The length-prefixed labels of the name without its trailing dots, or an error for a label that is empty or over 63 octets |
| `DnsNames.DecodeName` | _peiroot_/buildroot-resolver.py:188-205 | The loop returns the labels that the walk over pointers reads and the end of the name at its own position, beyond its start and within the message; it ends on every message, cycles included |
| `DnsNames.DecodesExpansions` | _peiroot_/buildroot-resolver.py:188-205 | A message decodes to some labels exactly when it expands to them through at most 33 pointers, lengths from 64 to 191 read as lengths; a cycle has no expansion |
| `DnsNames.AgreesExactly` | _peiroot_/buildroot-resolver.py:188-205 | decode_name agrees with section 4.1.4 of RFC 1035 on a message exactly when reading it passes no reserved length octet within 33 pointers and does not run through more than 33 pointers without one |
| `DnsNames.LongChainIsRefused` | _peiroot_/buildroot-resolver.py:188-205 | A concrete message, the root name behind 34 pointers, that RFC 1035 expands and decode_name refuses |
| `DnsNames.ReservedLengthIsRead` | _peiroot_/buildroot-resolver.py:193-205 | A concrete message with a reserved length octet that decodes though RFC 1035 gives it no expansion |
| `DnsNames.EndIsLocal` | _peiroot_/buildroot-resolver.py:197-198 | The returned end depends on the octets before it alone, not on where pointers lead |
| `DnsNames.NameRoundTrip` | _peiroot_/buildroot-resolver.py:178-205 | An encoded ASCII name at any offset of any message decodes to itself without trailing dots, with its exact end |
| `SdkClosure.ReachIsLeast` | com.facebook.zstd/sdk-consumer/project-sdk.py:13-23 | What a package reaches is the least dependency-closed set that holds it |
| `SdkClosure.Projection.Visit` | com.facebook.zstd/sdk-consumer/project-sdk.py:14-22 | The memoised search keeps its invariant: stack is a chain from the root, everything else selected is finished |
| `SdkClosure.SearchedAll` | com.facebook.zstd/sdk-consumer/project-sdk.py:13-23 | Back at the empty stack it has selected exactly what the root reaches, with no cycle and no inexact family dependency among it |
| `SdkClosure.Project` | com.facebook.zstd/sdk-consumer/project-sdk.py:13-23 | It succeeds exactly when no cycle is reachable and every family dependency is exact, with the reachable set and its outside dependencies; each error names a fault that is there |
| `SdkClosure.ClosureFrom` | org.llvm.llvm/tools/test-sdk-closures.py:21-28 | The all-paths recursion from a path fails exactly when some chain meets that path or itself, and else returns the reachable set |
| `SdkClosure.Closure` | org.llvm.llvm/tools/test-sdk-closures.py:21-28 | The closure of one package: the reachable set, or an error exactly when a cycle is reachable |
| `SdkClosure.Gatherer.Visit` | io.github.zlib-ng.zlib-ng/test-sdk-closure.py:35-45 | The cycle-tolerant search records only what the root reaches and leaves every member done |
| `SdkClosure.GatheredAll` | io.github.zlib-ng.zlib-ng/test-sdk-closure.py:33-47 | At its end the members are exactly what the root reaches and the rest its outside dependencies |
| `SdkClosure.Gather` | io.github.zlib-ng.zlib-ng/test-sdk-closure.py:33-47 | It succeeds exactly when no reached dependency names the family without a manifest, cycles or not |
| `SdkClosure.Compare` | com.facebook.zstd/sdk-consumer/project-sdk.py:13-23 | The memoised search succeeds exactly when the all-paths recursion does and every reached family dependency is exact; then both select the same set, and the cycle-tolerant search agrees when manifests are complete |
| `DebianStore.StepKeeps` | _debroot_/prepare.py:207-309 | Every step of every process, crashes included, keeps the invariant of jobs, store and processes |
| `DebianStore.StepWritesOnce` | _debroot_/prepare.py:266-276 | No step changes a stored archive, a job's base image or a complete cached root |
| `DebianStore.RunKeeps` | _debroot_/prepare.py:207-309 | The invariant holds after any schedule from the empty store |
| `DebianStore.RunWritesOnce` | _debroot_/prepare.py:266-276 | What was written once by the n-th step is unchanged after any later one |
| `DebianStore.EveryRunIsSound` | _debroot_/prepare.py:159-309 | After any schedule with crashes anywhere a cached root with its marker matches that marker, loads, records the job's one base image, has its whole archive in the store, and stays as it was when completed |
| `DebianStore.RestoredIsRecorded` | _debroot_/prepare.py:176-195 | A restored root is the archive its manifest names, and holds the package list and the reference record it names |
| `DebianStore.ExistingArchiveIsSound` | _debroot_/prepare.py:269-274 | An archive that already exists has the content it is named for, so the error for a corrupt one never arises from these steps |
| `DebianStore.LoadsWhatMatches` | _debroot_/prepare.py:159-173 | load_record accepts a record exactly when it fits the request and its files are its marker's |
| `DebianStore.TornExactly` | _debroot_/prepare.py:305-309 | A step makes evidence that matches its marker torn exactly when it copies a package list, or a reference record where both name one, other than the old marker names |
| `DebianStore.TornByTearing` | _debroot_/prepare.py:305-309 | Over any run the evidence of a target is torn at some time exactly when some step of the run copies over it a file other than its marker names |
| `DebianStore.SteadyEvidenceLoads` | _debroot_/prepare.py:281-309 | While a target is only ever prepared for one request and policy and never from a replay, its evidence is never torn after any schedule with crashes, and loads once it is marked |
| `DebianStore.CrashTearsEvidence` | _debroot_/prepare.py:305-309 | Any process cut short after its first copy over older, different evidence leaves an old marker beside a new list |
| `DebianStore.TornEvidenceIsReached` | _debroot_/prepare.py:305-309 | Such a state is reached from the empty store, and replaying it is refused |
| `AmdContainers.LE32Inverts` | com.amd.amd-ucode/tools/validate-amd-ucode.py:38-39 | Four octets are the little-endian writing of a number exactly when u32 reads that number there |
| `AmdContainers.ParseContainerFile` | com.amd.amd-ucode/tools/validate-amd-ucode.py:46-109 | The nested loops return the inventory of the containers read, or the first fault with its byte offset |
| `AmdContainers.ContainersRead` | com.amd.amd-ucode/tools/validate-amd-ucode.py:51-109 | Whatever is accepted is the serialisation of the well-formed containers it is read as |
| `AmdContainers.ContainersWritten` | com.amd.amd-ucode/tools/validate-amd-ucode.py:51-109 | The serialisation of any well-formed containers is read as those containers |
| `AmdContainers.AcceptsSerialisations` | com.amd.amd-ucode/tools/validate-amd-ucode.py:46-109 | A file is accepted as a list of containers exactly when the list is non-empty and well formed and the file is its serialisation: the decomposition is unique |
| `AmdContainers.JoinIsAccepted` | com.amd.amd-ucode/tools/validate-amd-ucode.py:148-156 | Accepted files put together are accepted as the containers of both, with the summed inventory |
| `AmdContainers.Validate` | com.amd.amd-ucode/tools/validate-amd-ucode.py:137-163 | main accepts exactly when there are inputs, all are accepted and the assembly is their concatenation; the final inventory check never fires; a bad file is the first one |
| `PtyDrive.Unescape` | _pkgtools_/pty-drive.c:89-118 | The buffer receives the bytes the escapes stand for, never more than there are characters; the first bad escape is the error |
| `PtyDrive.UnescapesSpellings` | _pkgtools_/pty-drive.c:89-118 | A text is accepted exactly when it is made of spellings of single bytes, and perhaps a lone backslash at its end, and then means what they spell |
| `PtyDrive.EverythingCanBeSpelled` | _pkgtools_/pty-drive.c:89-118 | Any bytes can be written on a script line and are read back |
| `PtyDrive.FirstIsLeast` | _pkgtools_/pty-drive.c:124-127 | The first occurrence from the mark is an occurrence, none is earlier, and it is found when there is one |
| `PtyDrive.FirstStays` | _pkgtools_/pty-drive.c:122-128 | More output never changes where a text already found first occurs |
| `PtyDrive.HitsWhatOccurs` | _pkgtools_/pty-drive.c:122-128 | A search hits exactly when the text occurs after the mark and there is some output, and hits its first occurrence; without output only an empty text occurs |
| `PtyDrive.EmptyExpectOfNothing` | _pkgtools_/pty-drive.c:122-136 | The script line expect with an empty text, of a command that writes nothing: the text occurs and the wait fails |
| `PtyDrive.FoundWhenInOrder` | _pkgtools_/pty-drive.c:120-136 | All texts are found exactly when they occur in order without overlap and there is some output, or no text to find; the final mark is the least end of any such places |
| `PtyDrive.Terminal.Append` | _pkgtools_/pty-drive.c:75-83 | What was read is appended, a NUL kept after it, and the buffer grown when needed; nothing before it changes |
| `PtyDrive.Terminal.Pump` | _pkgtools_/pty-drive.c:65-84 | One turn of waiting moves output from the terminal into the transcript and loses none |
| `PtyDrive.Terminal.Expect` | _pkgtools_/pty-drive.c:120-136 | A wait matches exactly when the text occurs in the whole transcript after the mark and the transcript is not empty, however the output is cut into reads; the new mark is the end of the first occurrence; else it fails with the status of how the output ended |
| `PtyDrive.Terminal.PlayLine` | _pkgtools_/pty-drive.c:188-204 | One script line: blank and comment lines do nothing, send and expect act on their unescaped text, anything else is an error |
| `PtyDrive.Terminal.Play` | _pkgtools_/pty-drive.c:187-205 | The script stops as the transcript decides, and when played to its end has sent all it sends and stands at the final mark of its texts |
| `PtyDrive.Terminal.Run` | _pkgtools_/pty-drive.c:187-227 | The exit status is that of the failed line, or the command's own, 124 past the deadline, 125 when polling fails; a script that is played prints the whole transcript |
| `PtyDrive.PlayedToTheEnd` | _pkgtools_/pty-drive.c:187-205 | A script is played to its end exactly when no line is broken and its texts are found in order, which takes some output when there are any |
| `PtyDrive.StoppedOnTheWay` | _pkgtools_/pty-drive.c:187-205 | Otherwise it stops at its first line that is no command or waits for a text that never comes, or for an empty one when nothing is ever output, with the status for that |
| `CertData.OctalExactly` | org.mozilla.ca-certificates/packages.pekit/tools/certdata-to-pem.py:44-50 | A block is read as some bytes exactly when it is their octal writing |
| `CertData.OctalHasNoEnd` | org.mozilla.ca-certificates/packages.pekit/tools/certdata-to-pem.py:44-78 | However octal is broken into lines, none of them looks like the end of the block |
| `CertData.HeaderReads` | org.mozilla.ca-certificates/packages.pekit/tools/certdata-to-pem.py:94-98 | A line that gives an attribute's value may be indented and spaced at will |
| `CertData.OpenerReads` | org.mozilla.ca-certificates/packages.pekit/tools/certdata-to-pem.py:94-98 | So may the line that opens an octal block, which has no value |
| `CertData.ParseObjects` | org.mozilla.ca-certificates/packages.pekit/tools/certdata-to-pem.py:63-128 | The loop over the lines computes what the line-by-line reading defines, or its first error with the line it names |
| `CertData.BlockFed` | org.mozilla.ca-certificates/packages.pekit/tools/certdata-to-pem.py:74-82 | The lines of an octal block, broken anywhere, do to the parser what the block says |
| `CertData.AttrFed` | org.mozilla.ca-certificates/packages.pekit/tools/certdata-to-pem.py:94-120 | So does an attribute on one line |
| `CertData.FedIsDoc` | org.mozilla.ca-certificates/packages.pekit/tools/certdata-to-pem.py:73-120 | Whatever the parser gets through is made of such pieces, perhaps with a block begun |
| `CertData.ParsesWhatIsSaid` | org.mozilla.ca-certificates/packages.pekit/tools/certdata-to-pem.py:63-128 | A text is accepted with some objects exactly when its lines are such pieces with BEGINDATA once and first, and their attributes fall into objects with distinct names that each (but the first) start with CKA_CLASS |
| `RootStore.File` | org.mozilla.ca-certificates/packages.pekit/tools/certdata-to-pem.py:151-173 | The first loop files certificates and trust records by identity, and refuses only what no order of the objects makes acceptable |
| `RootStore.Choose` | org.mozilla.ca-certificates/packages.pekit/tools/certdata-to-pem.py:193-217 | The second loop settles every certificate once: its mark, its fingerprint, its label |
| `RootStore.SortedIsOrdered` | org.mozilla.ca-certificates/packages.pekit/tools/certdata-to-pem.py:219-219 | Sorting orders entries with distinct fingerprints by label and fingerprint and keeps them all |
| `RootStore.Convert` | org.mozilla.ca-certificates/packages.pekit/tools/certdata-to-pem.py:146-220 | convert accepts exactly the acceptable collections of objects, in whatever order they come, and returns the trusted certificates in order with the counts of each mark |
| `RootStore.ConversionIsUnique` | org.mozilla.ca-certificates/packages.pekit/tools/certdata-to-pem.py:146-220 | A collection of objects has at most one result, so permuting it changes nothing |
| `RootStore.CountsAddUp` | org.mozilla.ca-certificates/packages.pekit/tools/certdata-to-pem.py:184-217 | Trusted, distrusted and other-purpose certificates add up to all certificates, which are as many as the trust records; entries are as many as the trusted |
| `Pem.DecodesEncoded` | org.mozilla.ca-certificates/packages.pekit/tools/certdata-to-pem.py:224-224 | Strict base64 decoding of section 4 of RFC 4648 undoes the encoding |
| `Pem.WrapsAll` | org.mozilla.ca-certificates/packages.pekit/tools/certdata-to-pem.py:225-225 | Wrapping loses nothing and makes lines of at most 64 characters, none of which looks like a boundary |
| `Pem.Render` | org.mozilla.ca-certificates/packages.pekit/tools/certdata-to-pem.py:229-246 | The loop writes the header and each certificate with its notes |
| `Pem.ReadsBack` | org.mozilla.ca-certificates/packages.pekit/tools/certdata-to-pem.py:223-246 | A reader of section 3 of RFC 7468 gets from the rendered bundle exactly the certificates, in order, when source, labels and fingerprints are single lines |
| `Pem.Bundle` | org.mozilla.ca-certificates/packages.pekit/tools/certdata-to-pem.py:257-263 | A bundle is made exactly when the objects are acceptable and as many as the floor are trusted; read back, it is exactly the certificates whose records say they are trusted, each once |
| `RustLicences.ReachedIsLeast` | _pkgtools_/collect-rust-licences:72-88 | Whatever holds the start and is closed under normal and build dependencies holds everything reached |
| `RustLicences.Search` | _pkgtools_/collect-rust-licences:81-89 | The worklist ends with exactly the reached crates, or at a reached crate that has no node |
| `RustLicences.Reachable` | _pkgtools_/collect-rust-licences:72-91 | The crates reached from the workspace roots by normal or build edges, cut to those built, each once, ordered by name and version; or the roots no workspace crate bears |
| `RustLicences.Collect` | _pkgtools_/collect-rust-licences:114-148 | It succeeds exactly when each crate declares a licence and each foreign one has a notice, and then returns the conjunction of the normalised licences |
| `RustLicences.CollectedMeans` | _pkgtools_/collect-rust-licences:114-148 | The collected expression means what every crate declares, all together, when each normalised expression is clear |
| `RustLicences.LicenceOf` | _pkgtools_/collect-rust-licences:187-191 | It succeeds exactly when the roots are workspace crates, all reached crates have nodes, each linked crate declares a licence and each foreign one has a notice; the expression is then that of exactly the linked crates |
| `LicenceTerms.HoldsEither` | _pkgtools_/collect-rust-licences:94-103 | OR binds least: it joins any two expressions |
| `LicenceTerms.HoldsBoth` | _pkgtools_/collect-rust-licences:106-111 | AND joins expressions that have no OR outside parentheses |
| `LicenceTerms.HoldsInside` | _pkgtools_/collect-rust-licences:110-110 | Parentheses keep an expression's meaning and hide its operators |
| `LicenceTerms.NormalisedMeans` | _pkgtools_/collect-rust-licences:94-103 | A normalised expression means what was declared, a slash being OR |
| `LicenceTerms.Combined` | _pkgtools_/collect-rust-licences:106-111 | The loop prints the sorted expressions joined by AND, bracketing the compound ones |
| `LicenceTerms.CombinedMeans` | _pkgtools_/collect-rust-licences:106-111 | The printed text, read with the precedence of annex D of SPDX 2.3, means the conjunction of all the expressions when each is clear |
| `LicenceTerms.ClearExactly` | _pkgtools_/collect-rust-licences:106-111 | An expression is printed rightly beside every clear other one exactly when it is bracketed by combined or has no OR outside its own parentheses |
| `LicenceTerms.BracketedChoiceIsUnclear` | _pkgtools_/collect-rust-licences:110-110 | A choice between two bracketed expressions is not clear: it looks bracketed as a whole |
| `LicenceTerms.TouchingOrIsUnclear` | _pkgtools_/collect-rust-licences:109-110 | Nor is one whose OR touches a parenthesis: it is not seen to be compound |
| `LicenceTerms.BracketedChoiceIsCollected` | _pkgtools_/collect-rust-licences:94-111 | Every choice between two bracketed identifiers is a declared licence that normalise returns as it is, and is not clear |
| `LicenceTerms.TouchingOrIsCollected` | _pkgtools_/collect-rust-licences:94-111 | So is every choice of two identifiers whose OR touches the parenthesis |
| `LicenceTerms.UnclearLicences` | _pkgtools_/collect-rust-licences:94-111 | Two concrete ones: (MIT) OR (ISC), and MIT OR(ISC) |
| `LicenceTerms.WrongConjunction` | _pkgtools_/collect-rust-licences:106-111 | Of (MIT) OR (ISC) and Zlib the text printed is (MIT) OR (ISC) AND Zlib, which holds where Zlib does not |
| `Overlay.RelativeExactly` | _debroot_/reference.py:157-163 | A name is accepted exactly when it is a plain path below usr, perhaps with slashes at its end |
| `Overlay.ParentsMade` | _debroot_/reference.py:166-173 | Parents are made exactly when none that stands is a file or link, and nothing that stands changes |
| `Overlay.Root.ParentSafe` | _debroot_/reference.py:166-173 | parent_safe makes the missing parents or reports a bad one, and never changes what stands |
| `Overlay.Root.Place` | _debroot_/reference.py:176-201 | place succeeds exactly when name and source are fit and the entry does not collide, and then adds just that entry and its parents; nothing that stands is ever changed |
| `Overlay.PutAdds` | _debroot_/reference.py:176-201 | An entry is placed exactly when nothing but directories stands where it and its parents go; what is added is it and them |
| `Overlay.PlacesCompatible` | _debroot_/reference.py:176-201 | Entries are all placed, from an empty root, exactly when they are compatible: each file or link once, nothing else at or below it; and the tree is theirs |
| `Overlay.AnyOrder` | _debroot_/reference.py:176-201 | Any order of the same entries succeeds or fails alike and builds the same tree, where every parent is a directory and every file and link the one entry placed there |
| `OverlayLinks.AcceptedExactly` | _debroot_/reference.py:188-198 | A link is accepted at a path exactly when it points below usr by its own text |
| `OverlayLinks.LeadsByText` | _debroot_/reference.py:188-198 | An accepted link whose text meets no other link leads exactly where its text points, below usr |
| `OverlayLinks.ClimbingFirstStays` | _debroot_/reference.py:188-198 | When every link of an overlay has its parent steps before its names, each leads below usr, through however many others |
| `OverlayLinks.NotRedirected` | _debroot_/reference.py:188-198 | A link that cannot be redirected leads where its text points, or back to itself, whatever else is placed |
| `OverlayLinks.LedOutExactly` | _debroot_/reference.py:188-198 | Some overlay of accepted entries leads an accepted link out of usr exactly when its text names, before the link itself, a place below usr that is not above the link |
| `OverlayLinks.TwoLinksLeadOut` | _debroot_/reference.py:188-198 | With usr/a/b/s pointing to ../.. and usr/t to a/b/s/../etc, both accepted, the second leads to /etc |
| `AptRequests.Requests` | _debroot_/prepare.py:62-81 | The loop returns each named package once, in order, with everything asked of it anywhere, in order; it fails exactly when some line is bad, with the fault of the first one |
| `AptRequests.AddClauses` | _debroot_/prepare.py:75-79 | The clauses of a line are all read, or the line is refused |
| `AptRequests.AnyOrder` | _debroot_/prepare.py:62-81 | The result does not depend on the order of the lines or on repeating them |
| `AptRequests.SplitLine` | _debroot_/prepare.py:62-81 | A line that says of a package what two lines say together may stand for both |
| `AptRequests.CutLine` | _debroot_/prepare.py:68-79 | A line's clauses may be cut apart at any comma, blanks beside it or not, and the parts written as two lines, unless a part is empty or a star: the whole line is refused then, and it is said when the two lines are not |
| `AptRequests.SameClauses` | _debroot_/prepare.py:68-79 | Two lines of one package with the same clauses up to order, repetition and blanks give the same result when neither or both are bare; when one is, one line is read and the other refused |
| `AptRequests.StarTwice` | _debroot_/prepare.py:73-78 | A star and a star twice have the same clauses; the line with one is accepted, also twice, and the line with both is refused |
| `AptRequests.CommasJoin` | _debroot_/prepare.py:75-75 | A list of clauses is what its two parts are, wherever it is cut at a comma |
| `AptRequests.PrintedReads` | _debroot_/reference.py:277-278 | Canonical requests, printed one a line, are read back as they were |
| `AptRequests.RequestedIsCanonical` | _debroot_/prepare.py:80-81 | What requests returns is canonical, so printing it and reading it again changes nothing |
| `Snapshot.ReaderKeeps` | _peiroot_/snapshot-repository.py:12-30 | Every step of a reader keeps the invariant: a copy under the shared lock is of one generation |
| `Snapshot.OtherKeeps` | _peiroot_/snapshot-repository.py:15-18 | So does every step of the publisher that does not let go of the lock half way |
| `Snapshot.VisibleStays` | _peiroot_/snapshot-repository.py:12-27 | No step changes or replaces a visible snapshot |
| `Snapshot.RunKeeps` | _peiroot_/snapshot-repository.py:9-31 | Over any interleaving every visible snapshot is complete and of one generation, as long as no publisher dies half way |
| `Snapshot.RunNeverReplaces` | _peiroot_/snapshot-repository.py:9-31 | A job's visible snapshot is the one it ever has |
| `Snapshot.HarmlessExactly` | _peiroot_/snapshot-repository.py:15-18 | When the publisher lets go of the lock, everything that can follow is harmless exactly when it leaves the parts in one generation |
| `Snapshot.FreshIsSound` | _peiroot_/snapshot-repository.py:9-31 | A published repository that no job has looked at satisfies the invariant, so every run from it keeps it |
| `Snapshot.HalfPublished` | _peiroot_/snapshot-repository.py:15-18 | From it a publisher that rewrites one of several parts and dies leaves the parts in two generations, with nothing else wrong |
| `Snapshot.MixedIsSeen` | _peiroot_/snapshot-repository.py:12-27 | A job that then looks gets a visible snapshot of mixed generations |

## Left out

- Regular expressions that classify WHENCE lines (File, Link, rules of dashes, licence tokens): a line comes already
  classified; undecodable bytes and escaped spaces in link names belong there too.
- TOML, `fnmatch`, `re.fullmatch` on drivers and `os.path.normpath` in the accounting: parameters of `Accounting.Config`.
- The order of problem lines that comes from iterating sets and dictionaries: issues are compared as a set.
- Entries of WHENCE are named by their index instead of by reference, so aliasing of entry dictionaries is not modelled.
- Copying, renaming and staging in `main` of sort-firmware.py, the excerpt of WHENCE and `check_staged`.
- Sockets, TCP framing, `chase`, search domains and resolver threads of buildroot-resolver.py.
- IDNA and UTF-8 coding of Python: an arbitrary function, and the well-formed sequences of the Unicode Standard.
- Python's recursion limit, which bounds the depth of nested MessagePack values and dependency chains.
- Projecting files of an SDK, staging and hashing after the closure is known.
- Docker, APT, gzip, tar and the network in prepare.py: a container run may leave anything; an image pull may give any
  image. Temporary files of `atomic` and of extraction: each write of a file is one step.
- The schema version and host architecture of a record are part of its policy; `PEKIT_DEBIAN_REPLAY` is a record given
  from outside.
- The recipe and target do not enter the cache key of a root, in the code as in the model, though they choose the overlay.
- Listing and sorting the microcode files of the source directory; read errors.
- Clocks, `poll`, `read`, `write` and `waitpid` of pty-drive.c: a wait meets an arbitrary sequence of output, silence, a
  poll error and the deadline. Running out of memory, the usage message and the options.
- `str.splitlines` and `ast.literal_eval`: the text comes as lines, and evaluating a quoted string is an arbitrary function.
- An octal block that is not ASCII raises a different exception than another malformed one; both are one error here.
- The file, chmod and statistics of the certificate bundle's `main`.
- RootStore.Convert: does not say which of several faults is reported, because that depends on the order of the objects.
- Copying notice files and the table of crates in collect-rust-licences; `cargo metadata` and `cargo tree` are inputs.
- LicenceTerms.Holds: an expression that is not balanced gets some value, because annex D gives it no meaning.
- OverlayLinks.Leads: takes what the overlay does not hold to be directories, because the tree it is laid over is not known.
- Reading directories, ownership and times of overlay entries; a directory's mode is not copied by the code either.
- Overlay.Root.Place: does not say which error is raised first, because only acceptance matters to the tree.
- The APT solver script and catalogue selection of the Debian preparation.
- The publisher program itself: it is a process that holds the lock alone while it rewrites parts one by one.
