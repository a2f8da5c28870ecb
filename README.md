# verify_sign in Dafny

A model of `autospec/verify_sign.py`, the package-verification module of
autospec. The module checks a downloaded source package before it is
built, in one of two ways:

- **GPG signature check.** For a `.tar.gz`, it checks the detached `.asc`
  signature. The signature is downloaded when it is missing. The key id is
  read with `gpg --list-packet`, and the key is looked up in the keyring
  directory next to the script. When the gpgme binding is missing, the
  signature is then checked with the `gpg` program. As written, the
  binding is never used: `Popen` is imported only when the binding is
  missing, so with the binding loaded the key-id listing raises
  `NameError` first (see Findings).
- **Checksum check.** For a `.gem`, it is meant to compare the file's
  SHA-256 digest with the digest that the RubyGems registry publishes for
  that version. As written, it raises `AttributeError` before any of this
  (see Findings); the comparison holds for the corrected constructor.

## How the model is built

**The host.** The operating-system state is a `Host` object
(`machine.dfy`). Its fields are:

- the files, with their bytes;
- the directories;
- the process environment;
- a trace of every external call, together with its answer;
- the lines printed.

Methods change these fields in place, as the Python code changes the disk
and `os.environ`.

**The collaborators.** The network, the `gpg` program, the gpgme binding,
the registry and SHA-256 are fixed functions in a `World` value. The same
value holds the directory the script lives in, and the choice of engine
made at import time.

**Exceptions.** Raising an exception is an `Outcome.Throw` with the Python
exception class. Results of `None` are `false` (or `Option.None` where the
value is not a truth value).

**Module layout.** The model follows the structure of the source:

| Dafny module | Source it models |
|---|---|
| `Text`, `Paths` | the `str` and `os.path` operations the module relies on |
| `Reporting` | `print_result` |
| `Download` | `attempt_to_download` |
| `KeyId` | `parse_keyid`, `get_keyid` and the key-file path |
| `Keyring` | `GPGCli`, `cli_gpg_ctx`, `gpg_ctx`, `verify_cli`, `verify_gpgme` |
| `Gpg` | `GPGVerifier` |
| `Gem` | `GEMShaVerifier` |
| `Dispatch` | `VERIFIER_TYPES`, `get_verifier`, `from_url`, `from_disk` |

### What is proved

**GPG verification.** `verify` is true exactly when the signature engine
reports a good signature. Once the package exists, how it ends is a
function of the host as it was: the key id gpg lists, whether its key file
exists, and the status the engine computes for that key (`Gpg.KeyOutcome`,
`Gpg.AfterSignature`). It also has these properties:

- A missing package ends it before any external call.
- A signature already on disk is never downloaded.
- A missing signature is downloaded as the first call.
- Every check that fails prints a failure line naming the reason; a
  failed download prints the download error before it.
- The signature engine is never used unless the key file exists.
- Without a key file, the result is never true and no engine runs.
- With the `gpg` program exiting with 0 for every call and the key file
  present, the result is true.

**Temporary keyrings.** In `cli_gpg_ctx` and `gpg_ctx`, a temporary
keyring is released on every exit, including when the import raises, and
the directories and files return to what they were. This does not hold in
one case: the gpgme engine given a keyring home, which leaves its temporary
directory behind. `verify` never passes a keyring home, so it always ends
with the directories it started with. Its files are those the signature
step leaves: a downloaded signature, or the partial bytes of a download cut
short. `GNUPGHOME` is deleted from the environment whenever a keyring was
made. The `gpg` program always makes one, so a `GNUPGHOME` the caller had
set is gone afterwards.

**Key ids.** A key-id listing of the usual shape parses to its key text,
upper-cased. Distinct key ids name distinct key files.

**Gems.** As written, a gem verification raises `AttributeError` before
any call (see Findings). With the corrected constructor, it is true exactly when the registry lists
exactly one release with the file's version, and that release's digest is
the digest of the file. For the name and version:

- `<name>-<version>.gem` splits into the name and the version, also for
  a name holding '-' such as `rack-test`, as long as it holds no '.'.
- A directory in front of the file name stays in the name.

**Release selection.** Release selection answers exactly for a unique
match. It gives no answer for zero or several matches, and ignores records
without a version.

**Verifier choice.** The verifier is chosen by a case-sensitive extension
match. An upper-case extension gets no verifier.

**Downloads.** A download keeps the destination file exactly on HTTP 200
or on a transport error.

**Hashing.** The digest is computed over the whole file, read in 4096-byte
blocks.

## Model

| member | source | states |
|---|---|---|
| Text.Find | autospec/verify_sign.py:291-292 | `str.find`: the result is an occurrence of the pattern and no earlier one exists, or -1 when there is none at all (`str.index` raises in that case) |
| Text.AsciiWhitespace | autospec/verify_sign.py:293 | on ASCII, the whitespace `strip` drops is exactly space, tab, newline, carriage return, vertical tab, form feed and the four separators 0x1c-0x1f |
| Text.TrimStart | autospec/verify_sign.py:293 | `lstrip`: the result is a suffix, does not start with whitespace, and everything dropped is whitespace |
| Text.TrimEnd | autospec/verify_sign.py:293 | `rstrip`: the result is a prefix, does not end with whitespace, and everything dropped is whitespace |
| Text.Strip | autospec/verify_sign.py:293 | `strip`: the result neither starts nor ends with whitespace and is no longer than the input |
| Text.StripIsSlice | autospec/verify_sign.py:293 | `strip` gives a slice of the input, and everything outside that slice, before and after, is whitespace |
| Text.StripWithin | autospec/verify_sign.py:293 | stripping adds no character: one absent from the input is absent from the result |
| Text.StripKeepsTrimmed | autospec/verify_sign.py:293 | a string without surrounding whitespace is its own strip |
| Text.Upper | autospec/verify_sign.py:298 | `upper`: same length, each character upper-cased, no lower-case ASCII letter left, no newline introduced |
| Text.RemoveAll | autospec/verify_sign.py:256-258 | `replace(pat, '')`, scanning left to right: the leftmost occurrence is cut and the scan resumes after it; the result is never longer than the input |
| Text.RemoveAllKeeps | autospec/verify_sign.py:256-258 | every character `replace` leaves comes from the input |
| Text.RemoveAllAbsent | autospec/verify_sign.py:256-258 | `replace` of a pattern that does not occur changes nothing |
| Text.RemoveAllLeading | autospec/verify_sign.py:258 | a leading occurrence of the pattern is removed and the rest is treated alone |
| Text.RemoveAllTrailing | autospec/verify_sign.py:256 | a trailing occurrence that no earlier one overlaps is removed, giving back the text before it |
| Text.IntToString | autospec/verify_sign.py:191-192 | `str` of an HTTP code: non-empty, a leading '-' exactly for negative numbers, and after it the decimal digits of the magnitude |
| Text.NatToString | autospec/verify_sign.py:191-192 | `str` of a non-negative number: decimal digits whose value is the number, with no leading zero |
| Text.LastIndexOf | autospec/verify_sign.py:157 | `rfind` of one character: the index holds that character and no later index does, or -1 |
| Paths.BaseStart | autospec/verify_sign.py:321-322 | the final component starts just after a '/' (or at 0) and holds no '/' |
| Paths.Basename | autospec/verify_sign.py:321-322 | `os.path.basename`: a suffix of the path without '/', preceded by '/' unless it is the whole path |
| Paths.Splitext | autospec/verify_sign.py:275-276 | `os.path.splitext`: root and extension concatenate to the path; the extension is empty or one dot followed by no dot or '/'; it is non-empty exactly when the final component has a non-dot character before a later dot |
| Paths.ExtensionIs | autospec/verify_sign.py:275-276 | a given extension is the one found exactly when the path ends with it and the final component has a non-dot character before it (both directions) |
| Paths.Join | autospec/verify_sign.py:335 | `os.path.join`: an absolute second part replaces the first; an empty first part gives the second; otherwise the first part, a '/' unless it already ends with one, then the second part |
| Paths.JoinBasename | autospec/verify_sign.py:334-335 | joining the download directory and a file name without '/' gives a path whose basename is that file name |
| Machine.Host.Say | autospec/verify_sign.py:325-330 | printing appends exactly one line and leaves files and directories alone |
| Machine.Host.Exists | autospec/verify_sign.py:196-203 | `os.path.exists` is true for a file or a directory, and on a valid host never for the empty path |
| Reporting.PackageName | autospec/verify_sign.py:155-157 | the name shown is empty without a URL, and otherwise the URL's basename |
| Reporting.ResultReport | autospec/verify_sign.py:154-163 | the result line is a success line exactly when the result is truthy, and an error line otherwise |
| Reporting.ResultLine | autospec/verify_sign.py:158-163 | the line starts with the package name and ends with "verification was successful", or with "verification failed" and the message |
| Reporting.DownloadFailed | autospec/verify_sign.py:191-192 | the download error names the key URL (or None) and ends with " http code " and the code (or None) |
| Download.Status | autospec/verify_sign.py:308-317 | the value returned is None exactly for a transport error and the HTTP code of a finished transfer otherwise |
| Download.FilesAfter | autospec/verify_sign.py:303-317 | the destination remains exactly on code 200 or a transport error, holding the bytes that arrived; no other path changes |
| Download.AttemptToDownload | autospec/verify_sign.py:301-318 | an unopenable destination raises with nothing changed; otherwise one fetch is recorded, the status is returned and the files become `FilesAfter` |
| KeyId.ParseListing | autospec/verify_sign.py:284-293 | text on standard error gives None; a missing `keyid` raises ValueError; a key is newline-free and stripped |
| KeyId.ParseListingLine | autospec/verify_sign.py:289-293 | with `keyid` found and nothing on standard error: ValueError exactly when no newline follows the key position, and otherwise the stripped text up to that newline |
| KeyId.LineFrom | autospec/verify_sign.py:292-293 | ValueError exactly when no newline follows `start`; otherwise the text from `start` up to the first newline, stripped |
| KeyId.LineClean | autospec/verify_sign.py:292-293 | a line read is never None, has no newline and is already stripped |
| KeyId.FirstStaysFirst | autospec/verify_sign.py:291 | text after the first `keyid` cannot move where `index` finds it |
| KeyId.LineFromKey | autospec/verify_sign.py:292-293 | a key followed by a newline is read back exactly |
| KeyId.ParseKeyLine | autospec/verify_sign.py:291-293 | a listing whose first `keyid` is followed by a space, a trimmed key and a newline parses to exactly that key |
| KeyId.KeyidOf | autospec/verify_sign.py:296-298 | a None from the parser raises AttributeError, a parse error stays ValueError, a key is returned upper-cased with no lower-case letter or newline |
| KeyId.GetKeyid | autospec/verify_sign.py:284-298 | with `Popen` unbound, NameError and no call; otherwise one `gpg --list-packet <signature>` run is recorded, nothing else changes, and the result is the key id of its answer |
| KeyId.PubkeyPath | autospec/verify_sign.py:183-184 | the key file lies in the script directory and ends with `/keyring/<KEYID>.pkey` |
| KeyId.PubkeyPathInjective | autospec/verify_sign.py:181-184 | distinct key ids name distinct key files |
| KeyId.ExampleListing | autospec/verify_sign.py:284-298 | a listing `keyid 5f1a2b3c4d5e6f70` yields `5F1A2B3C4D5E6F70` |
| Keyring.Prune | autospec/verify_sign.py:99 | removing a tree keeps exactly the paths not at or below its root |
| Keyring.PruneFiles | autospec/verify_sign.py:99 | removing a tree keeps exactly the files not at or below its root, with their contents |
| Keyring.FreshNameExists | autospec/verify_sign.py:70 | some name with the temporary prefix has nothing at or below it, so `mkdtemp` can succeed |
| Keyring.Mkdtemp | autospec/verify_sign.py:94 | a new directory with the `tmp.gpghome` prefix under which nothing exists is added, and nothing else |
| Keyring.Rmtree | autospec/verify_sign.py:99 | removes the tree and everything below it, tolerating a missing tree |
| Keyring.PruneFresh | autospec/verify_sign.py:96-99 | removing a freshly made directory restores the directories and files that existed before it |
| Keyring.CliStatus | autospec/verify_sign.py:51-54 | the status is None exactly for exit code 0, and otherwise carries gpg's standard error as `strerror` |
| Keyring.CliOutcome | autospec/verify_sign.py:66-83 | the `gpg` engine with a key raises exactly when the import exits non-zero, with gpg's message; otherwise it gives the verify run's status |
| Keyring.GpgmeOutcome | autospec/verify_sign.py:102-133 | the gpgme engine raises only OSError (a file it cannot open) or IndexError (no key imported, no signature); a status is given only when signature, tarball and key file all exist |
| Keyring.NewGpgCli | autospec/verify_sign.py:66-76 | without a key nothing happens; with one, the keyring (given or fresh) is exported as GNUPGHOME, one `gpg --import` is run, and a non-zero exit raises with its standard error |
| Keyring.CliVerify | autospec/verify_sign.py:78-83 | one `gpg --verify <signature> <tarfile>` run is recorded and its exit code decides the status |
| Keyring.VerifyCli | autospec/verify_sign.py:86-99 | files and directories are as before on every exit; a temporary keyring has GNUPGHOME deleted afterwards while a caller's stays exported; a failed import raises with gpg's message and skips the verify run |
| Keyring.VerifyGpgme | autospec/verify_sign.py:102-133 | an unreadable signature or tarball raises before anything else; a key always gets a fresh keyring that is released only without a home; a missing key file raises OSError, no imported key or no signature raises IndexError; otherwise the first signature's status |
| Gpg.ListingIsPlain | autospec/verify_sign.py:285 | the key-id listing is neither a download nor an engine call |
| Gpg.SignEngine | autospec/verify_sign.py:207-210 | the engine `GPG_CLI` selects, with a fresh temporary keyring: files and directories end as before, `GNUPGHOME` is removed from the environment once a keyring was made (always for the `gpg` program, for gpgme once signature and tarball exist) and kept otherwise, only engine calls are made, and the status is `CliOutcome` or `GpgmeOutcome` for the host as it was |
| Gpg.GpgmeNeverReached | autospec/verify_sign.py:42-47 | as written (`Popen` bound only when gpgme is missing), with gpgme loaded the key steps end in NameError |
| Gpg.GpgmeDecides | autospec/verify_sign.py:42-47 | with `Popen` bound in both branches, a parsed key id whose key file exists leads to the gpgme engine's verdict |
| Gpg.GoodCliSignature | autospec/verify_sign.py:202-210 | with the `gpg` program, a parsed key id, its key file present and gpg exiting with 0 everywhere, the engine reports a good signature |
| Gpg.MissingKeyRejected | autospec/verify_sign.py:202-206 | without a key file for any key id, the engine is never reached |
| Gpg.GpgVerifier.constructor | autospec/verify_sign.py:172-179 | the key URL defaults to the URL plus `.asc` only when a URL and no key URL is given; the signature path defaults to the package path plus `.asc` |
| Gpg.GpgVerifier.Create | autospec/verify_sign.py:172-179 | TypeError exactly when neither a signature path nor a package path is given; otherwise the defaults above |
| Gpg.GpgVerifier.GetPubkeyPath | autospec/verify_sign.py:181-184 | the key-id listing (none when `Popen` is unbound); its exception propagates, otherwise the key file for that id |
| Gpg.GpgVerifier.GetSign | autospec/verify_sign.py:186-192 | downloads the signature from the key URL; true exactly for HTTP 200; any other outcome prints one line with the URL and the code |
| Gpg.GpgVerifier.SignatureStep | autospec/verify_sign.py:199-201 | true exactly when the signature is present or its download answers HTTP 200; the files are always those after the download, which keep partial bytes on a transport error and drop the file on another HTTP code; a present signature is used with no call; a missing one is downloaded (an empty path raises OSError first), and a failed download prints the download error and the "not found" result |
| Gpg.GpgVerifier.KeyLookup | autospec/verify_sign.py:202-206 | raises exactly what the key-id listing raises (NameError when `Popen` is unbound); otherwise the key file of the listed id, and a missing one makes a second listing and prints "Public key <id> not found in keyring" |
| Gpg.GpgVerifier.KeyFile | autospec/verify_sign.py:203-206 | an existing key file is returned with nothing printed; a missing one is reported with the key id listed again |
| Gpg.GpgVerifier.EngineStep | autospec/verify_sign.py:207-215 | the engine's status decides: None prints success and gives true, a status prints its `strerror` and gives false, an exception propagates; files and directories are unchanged and the environment loses `GNUPGHOME` once a keyring was made |
| Gpg.GpgVerifier.EngineStage | autospec/verify_sign.py:207-215 | the engine step after the key-id listing, for a key id whose key file exists: the stage is the engine's, as `KeyOutcome` says for that key id; the trace is that listing followed by engine calls only; files and directories are unchanged and the environment is as the engine leaves it |
| Gpg.GpgVerifier.KeyStep | autospec/verify_sign.py:202-215 | the stage is `KeyOutcome` of the host as it was: the listing's exception, a missing key (two listings, one failure line, false) or the engine's status for that key, which decides the result; files and directories are unchanged, and the environment loses `GNUPGHOME` only when the engine made a keyring |
| Gpg.GpgVerifier.Proceed | autospec/verify_sign.py:199-215 | from an existing package: the key steps run exactly when the signature is usable and end as `KeyOutcome` says for the files after the signature step; the host is left as `HostAfter` says (the signature step's files, the same directories, the engine's environment); the download is the first call when needed; the engine is used only once the key file is found |
| Gpg.GpgVerifier.Verify | autospec/verify_sign.py:194-215 | true exactly when the engine reports a good signature; a missing package ends everything with one failure line, no call and the host unchanged; with the package present the stage is `AfterSignature` and the host is `HostAfter` of the host as it was; a missing signature or key file prints its reason; no engine call is made unless the key file was found |
| Gem.ApiUrl | autospec/verify_sign.py:218 | the registry URL is the versions endpoint followed by the gem name and `.json` |
| Gem.GemnumberSha | autospec/verify_sign.py:239-244 | None unless exactly one record carries the version; an answer is the `sha` of a record carrying it |
| Gem.Matching | autospec/verify_sign.py:240 | the comprehension keeps only records of the input whose `number` is the version |
| Gem.MatchingAppend | autospec/verify_sign.py:240 | the comprehension distributes over concatenation |
| Gem.MatchingNone | autospec/verify_sign.py:240 | records without the version contribute nothing |
| Gem.UniqueMatch | autospec/verify_sign.py:239-244 | with exactly one record of the version, its `sha` is returned |
| Gem.AmbiguousMatch | autospec/verify_sign.py:239-244 | two records of the version give None |
| Gem.NoMatch | autospec/verify_sign.py:239-244 | no record of the version gives None |
| Gem.NumberlessIgnored | autospec/verify_sign.py:240 | a record without `number` (compared through the default -100) changes nothing |
| Gem.DigitsEnd | autospec/verify_sign.py:257 | the greedy `\d+`: the run covers only digits and stops at a non-digit or the end |
| Gem.MatchAtIsPattern | autospec/verify_sign.py:257 | the match test is the regular expression `-\d+\.` read literally: a '-', one or more digits, then a '.' |
| Gem.MatchEnd | autospec/verify_sign.py:257 | a match of `-\d+\.` ends with its '.' and holds no other '-' |
| Gem.MatchesFrom | autospec/verify_sign.py:257 | every split point `re.split` uses is a match of the pattern |
| Gem.NoMatchFrom | autospec/verify_sign.py:257 | with no match the path is not split |
| Gem.FirstMatch | autospec/verify_sign.py:257 | the scan splits first at the leftmost match |
| Gem.FirstLeftmost | autospec/verify_sign.py:257 | the scan never skips a match |
| Gem.LaterMatch | autospec/verify_sign.py:257 | a second match after the leftmost one gives at least two split points, so the unpacking into two names fails |
| Gem.MatchesAreMatches | autospec/verify_sign.py:257 | a path without a match is never split |
| Gem.GemName | autospec/verify_sign.py:256 | the gem name is the final component with every `.gem` removed, and has no '/' |
| Gem.NameAndVersion | autospec/verify_sign.py:256-258 | ValueError unless the split gives two pieces; the name is the path before a match, the version is the gem name with `name-` removed |
| Gem.NameIsBeforeSingleMatch | autospec/verify_sign.py:257 | the split succeeds with a name of length i exactly when the pattern matches at i and nowhere else |
| Gem.DirectoryStaysInName | autospec/verify_sign.py:256-258 | a directory in front of the file stays in the name, so nothing is removed and the version is the whole gem name |
| Gem.CharNeverOccurs | autospec/verify_sign.py:258 | `replace` of a pattern holding a character the text lacks changes nothing |
| Gem.NoMatchInStem | autospec/verify_sign.py:257 | the pattern never matches inside a stem without '.', even one holding '-' |
| Gem.StemSplit | autospec/verify_sign.py:257 | in `<stem>-<version>.gem`, with no '.' in the stem, the pattern matches only right after the stem |
| Gem.StemGemName | autospec/verify_sign.py:256 | the gem name of `<stem>-<version>.gem` is `<stem>-<version>` |
| Gem.BareGemName | autospec/verify_sign.py:257 | the split of `<stem>-<version>.gem`, with no '.' in the stem, gives the stem as the name |
| Gem.BareGemFile | autospec/verify_sign.py:256-258 | `<stem>-<version>.gem`, with no '/' or '.' in the stem, splits into exactly the stem and the version |
| Gem.BareFileName | autospec/verify_sign.py:256-258 | `rack-test-2.0.0.gem` splits into `rack-test` and `2.0.0` |
| Gem.Blocks | autospec/verify_sign.py:250 | the blocks read concatenate to the file; each is non-empty and at most 4096 bytes; all but the last are exactly 4096 |
| Gem.BlocksStep | autospec/verify_sign.py:250 | each read takes the next block and leaves the rest to be read the same way |
| Gem.Sha256.constructor | autospec/verify_sign.py:249 | a new hasher has been fed nothing |
| Gem.Sha256.Update | autospec/verify_sign.py:251 | `update` appends the block to what was fed |
| Gem.CalcSha | autospec/verify_sign.py:246-252 | a missing file raises OSError; otherwise the digest of the whole file, fed in exactly the 4096-byte blocks above |
| Gem.Decoded | autospec/verify_sign.py:234-236 | a JSON list gives its records, `null` gives None, text that is not JSON raises ValueError and a failed transfer raises the curl error |
| Gem.GetRubygemsInfo | autospec/verify_sign.py:227-236 | one registry query for the gem's versions URL is recorded, and the result is its decoded answer |
| Gem.GemShaVerifier.constructor | autospec/verify_sign.py:224-225 | only `url` and `package_sign_path` are kept, and no package path is set |
| Gem.GemShaVerifier.WithPackagePath | autospec/verify_sign.py:224-225 | the constructor also keeps the package path |
| Gem.GemShaVerifier.Verify | autospec/verify_sign.py:254-267 | true exactly when the registry lists exactly one release of the file's version with the file's digest; a missing package path, a failed split, a registry error, a JSON null and a missing file each raise their exception; a verdict prints one result line |
| Gem.GemShaVerifier.CheckRelease | autospec/verify_sign.py:259-267 | one registry query; its failures raise before the file is read, and otherwise the digest comparison is printed and returned |
| Gem.VerifyAsWritten | autospec/verify_sign.py:254-256 | as written, verifying any gem raises AttributeError before any call or output |
| Dispatch.GetFileExt | autospec/verify_sign.py:275-276 | the extension is what `splitext` finds: a suffix of the name, empty or starting with '.' |
| Dispatch.GetVerifier | autospec/verify_sign.py:279-281 | the GPG verifier exactly for extension `.gz` and the gem verifier exactly for `.gem` |
| Dispatch.VerifierByName | autospec/verify_sign.py:269-281 | in terms of the name: ends in `.gz` (or `.gem`) with a non-dot character before it in the final component, in both directions |
| Dispatch.UpperCaseIsNotVerifiable | autospec/verify_sign.py:279-281 | `.GZ` and `.GEM` get no verifier |
| Dispatch.TarballIsGpg | autospec/verify_sign.py:269-281 | a `<stem>.tar.gz` with a non-dot character in its stem gets the GPG verifier |
| Dispatch.RunGpg | autospec/verify_sign.py:194-215 | a GPG verifier built from the package path and URL ends as `GpgRun` says: true exactly for a good signature, a missing package fails at once and changes nothing, otherwise the signature is fetched first when missing, the key steps end as `AfterSignature` says and files, directories and environment end as `HostAfter` says |
| Dispatch.KeyringReleased | autospec/verify_sign.py:96-121 | for a caller without `GNUPGHOME` set, a GPG verification leaves the directories and the environment exactly as they were, whatever the outcome |
| Dispatch.GnupghomeDropped | autospec/verify_sign.py:96-99 | once the `gpg` program has run, `GNUPGHOME` is gone from the environment, even when the caller had set it |
| Dispatch.PartialSignatureKept | autospec/verify_sign.py:301-317 | a signature download cut short by a transport error fails the verification and leaves the bytes that arrived under the signature's name |
| Dispatch.MissingKeyNeverPasses | autospec/verify_sign.py:202-206 | without a key file for any key id, a GPG verification is never true and makes no engine call |
| Dispatch.GoodSignaturePasses | autospec/verify_sign.py:199-215 | with the `gpg` program, package and signature usable, a parsed key id with its key file and gpg exiting with 0 everywhere, a GPG verification is true |
| Dispatch.RunVerifier | autospec/verify_sign.py:340-341 | a GPG verification ends as `GpgRun` says (verdict, first call, stage and the files, directories and environment afterwards), the signature coming from the URL plus `.asc`; a gem verification changes no file, directory or environment variable and is true exactly when the release is published with the file's digest |
| Dispatch.NotVerifiableYet | autospec/verify_sign.py:338 | the error line names the file and ends with "is not verifiable (yet)" |
| Dispatch.FromUrl | autospec/verify_sign.py:333-341 | the package is the URL's basename inside the download directory; no verifier prints one error and changes nothing else; a GPG verification ends as `GpgRun` says with the signature from the URL plus `.asc`; a gem one as `Published` says |
| Dispatch.VerifyLocated | autospec/verify_sign.py:336-341 | the same, once the file name and package path are known |
| Dispatch.NotVerifiable | autospec/verify_sign.py:347 | the plain line names the file and ends with "is not verifiable" |
| Dispatch.FromDisk | autospec/verify_sign.py:344-350 | no verifier prints one plain line and changes nothing else; a GPG verification ends as `GpgRun` says, with the signature at the package path plus `.asc` fetched from no URL; a gem one as `Published` says |

## Left out

- Banners and progress lines are not part of `Host.reports`. These are the `SEPT` lines that `Verifier.__init__` and `__del__` print, and the "Performing …" lines. They carry no verdict.
- The colour prefixes of `print_success` and `print_error` are not modelled. A `Success` or `Error` report stands for them.
- Two diagnostic prints are not modelled: `parse_keyid` printing gpg's standard error, and `attempt_to_download` printing the curl error arguments. Only their effect on the result is kept.
- The file system is flat. Opening a file for writing fails only for the empty name or a directory. Missing parent directories, permissions and symbolic links are not modelled.
- What gpg and gpgme write into the keyring directory is not modelled. The program's own effects on that directory are modelled.
- `mkdtemp` always succeeds, with a name chosen freely among fresh names under the prefix.
- Only the boolean outcome of `ctx.import_` is modelled: whether a key was imported. A failure of `ctx.get_key` or `ctx.verify` is not modelled. Nor is the `signers` assignment, which has no effect on verification.
- The gpg and gpgme status is represented by its `strerror` text.
- The `raise Exception('Verification did not take place…')` lines in `verify_gpgme` and `verify_cli` are not modelled. They cannot be reached, because the `with` body always returns.
- The registry answer is limited to a JSON list of records, `null`, text that is not JSON, and an unreachable registry. Other JSON shapes (objects, numbers), list elements that are not objects, and non-string `number`/`sha` values are not modelled.
- The `geminfo is None` branch (`print_error("unable to parse info …")`) is not modelled. It cannot be reached, because `get_gemnumber_sha` already raises `TypeError` on `None`.
- SHA-256, the network (including redirects and a `None` URL), the `gpg` program, the gpgme binding and the registry are functions in `World`. Their internals are not modelled.
- The import-time choice between gpgme and the `gpg` program is `World.gpgCli`. Whether `Popen` and `PIPE` are bound is `World.popenBound`. As written the two are equal; the model keeps them apart so that the corrected import can be stated (see Findings).
- `os.path.dirname(os.path.abspath(__file__))` is `World.scriptDir`.
- `str.upper` is modelled for ASCII letters only. `\d` is modelled for ASCII digits only, although Python's `re` also matches other Unicode digits.
- Decoding bytes as UTF-8 is not modelled: the tools' output is already text.
- The `None` that `verify`, `from_url` and `from_disk` return on failure is `false`.
- `parse_args` and `main` (command-line handling) are not modelled.
- `Verifier.download_file` is not modelled separately: it only forwards to `attempt_to_download` (`Download.AttemptToDownload`).
- `filename_from_url` is not modelled separately: it is `Paths.Basename`.
- Gpg.GpgVerifier.Verify: the calls after the key-id listing are stated as engine calls only, not one by one. The detail is in Keyring.VerifyCli and Keyring.VerifyGpgme.
- Dispatch.RunVerifier: for the GPG verifier it states the verdict, the first call, the stage and the host afterwards, not each report line. Those are stated by Gpg.GpgVerifier.Verify.
- Dispatch.RunVerifier: for a `.gem` it builds the verifier with the corrected constructor (`Gem.GemShaVerifier.WithPackagePath`). As written, the verification raises AttributeError instead (`Gem.VerifyAsWritten`, see Findings).
- Dispatch.FromUrl: a `.gem` is verified with the corrected constructor, as in Dispatch.RunVerifier; as written it raises AttributeError.
- Dispatch.VerifyLocated: a `.gem` is verified with the corrected constructor, as in Dispatch.RunVerifier; as written it raises AttributeError.
- Dispatch.FromDisk: a `.gem` is verified with the corrected constructor, as in Dispatch.RunVerifier; as written it raises AttributeError.
- Keyring.NewGpgCli and Keyring.CliVerify run `gpg` without consulting `World.popenBound`. They are reached only when the binding is missing, and then the import block has bound `Popen`.
- The `Stage` of a gem verification, or of a name without a verifier, carries no meaning: only GPG verifications have stages.

## Findings

| source | as written | input that shows it | evidently intended | confidence | as-written member | corrected member |
|---|---|---|---|---|---|---|
| autospec/verify_sign.py:42-47 | `Popen` and `PIPE` are imported only in the `except` branch, so with gpgme loaded `parse_keyid` raises NameError at line 286 and `verify_gpgme` is never reached | a host where `import gpgme` succeeds, any existing package and signature | import `Popen` and `PIPE` unconditionally, so the key id is listed and the gpgme engine decides | not executed | Gpg.GpgmeNeverReached | Gpg.GpgmeDecides |
| autospec/verify_sign.py:224-225 | `GEMShaVerifier.__init__` runs only the base initialiser, so `package_path` is never set, and `verify` raises `AttributeError` at line 256 | any `.gem` package, e.g. `from_url("https://rubygems.org/downloads/bar-2.0.0.gem", "/tmp")` | keep `package_path`, so that the file's digest is compared with the published one | not executed | Gem.VerifyAsWritten | Gem.GemShaVerifier.WithPackagePath |

For the first row, `World.popenBound` says whether `Popen` is bound. As
written it equals `World.gpgCli`. `KeyId.GetKeyid` raises NameError
without any call when it is false. `Gpg.GpgmeNeverReached` shows that the
gpgme engine is then never reached. `Gpg.GpgmeDecides` shows that with the
import fixed (`popenBound` true), the gpgme engine's verdict is what the
key steps give.

For the second row, the rest of the model uses the corrected constructor (`Dispatch.RunVerifier`).
`Gem.GemShaVerifier.Verify` proves the intended property for it: the
verification is true exactly when the registry lists the file's version
once, with the file's digest.

The gem name is split from the whole package path (line 257), not from
its final component. `Gem.DirectoryStaysInName` states what follows from
this as written: a package inside a directory keeps that directory in its
name. The model keeps this behaviour.
