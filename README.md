# Wake-on-LAN: packet builder, alias resolver and helpers, in Dafny

This project models the logical core of the `waker` Wake-on-LAN tool set
(two library crates, `waker` and its predecessor `wakeonlan`; two
command-line tools, `waker-cli` and `wakeonlan-cli`; and the `waker-server`
start-up helpers) and proves properties of that model.

- **Magic packet** (`magic_packet.dfy`, `waker_lib.dfy`, `wakeonlan_lib.dfy`).
  The AMD Magic Packet format is defined once, as `MagicPacketFormat.MagicPacket`:
  six `0xFF` bytes, then the 6-byte hardware address sixteen times, 102 bytes in
  all. Each crate's `create_magic_packet_impl` is a method that grows the
  buffer in a 16-round loop and is proved to build exactly that packet. Lemmas
  give the block layout, read the address back out of the packet (so the packet
  determines the address), and show the repository's test vectors. Each crate's
  `create_magic_packet` is a function that fails exactly when the address
  conversion fails, with the same error.
- **MAC conversion** (`mac_types.dfy`). This covers the error enum and its
  display messages, and the conversion of the accepted input forms (a `Mac`,
  a `[u8; 6]`, a byte slice, a string) into address bytes. A byte slice that
  is not 6 long fails with `InvalidLength(n)`. The string parser is a
  parameter (`MacParser`): its grammar lives in a file that is not part of
  this model. Lemmas constrain it only through the test vectors they take as
  preconditions.
- **Hex digit decoder** (`Waker.HexVal`). It maps `0-9`, `a-f` and `A-F` to
  0..15 and rejects every other character. It is proved to invert the lower-
  and upper-case digit tables.
- **Alias resolver** (`alias_resolver.dfy`, `waker_cli.dfy`, `wakeonlan_cli.dfy`).
  The scan of `find_best_machine` is specified over the similarity scores
  (`AliasResolver.BestIndex`) and characterised as "the first highest positive
  score among the entries read up to the first score close to the upper
  bound". Each tool's `Data` is a class whose `machines` field holds the
  ordered collection. Its `FindBestMachine` loop is proved against the
  specification. The duplicate-name test (strictly above 0.9) and the
  append-only `AddMachine` are modelled too. The similarity metric and the
  upper-bound test come from an outside crate. They are parameters, and
  nothing is assumed about them.
- **Validators** (`cli_validators.dfy`). `validate_text` uses Rust's `trim`,
  modelled with the Unicode White_Space set. `validate_mac` never returns the
  outer error, and its message identifies the parse error exactly.
- **Server helpers** (`server_utils.dfy`). This covers `get_env`, `is_env`,
  Rust's `usize` parser and `get_num_threads`: the order of precedence, the
  clamp to `[1, cores]` and the warnings it logs. The environment, the CPU
  count and the default count are parameters.

Two behaviours of the code are worth stating on their own terms:

- On an entry whose score is close to the upper bound, the code stops and
  returns the best entry so far. That is not necessarily the entry that
  triggered the stop. `AliasResolver.EarlyExitAgreesWithFullScan` gives the
  condition under which stopping early matches a full scan.
- The two crates' tests disagree on the error for the 5-group string
  `"01:23:45:67:89"`. `waker` expects `InvalidLength(14)`; `wakeonlan`
  expects `InvalidMacAddress`. Each crate's test-vector lemma takes its own
  crate's expectation as a precondition on the parser.

## Model

| member | source | states |
|---|---|---|
| `MagicPacketFormat.MagicPacket` | waker/src/lib.rs:202-212 | the packet is 102 bytes: bytes 0..6 are 0xFF, and every later byte i is byte (i-6) mod 6 of the address |
| `MagicPacketFormat.PacketBlock` | waker/src/lib.rs:207-209 | for every k in 0..16, bytes 6+6k .. 12+6k of the packet are the address |
| `MagicPacketFormat.MacOfPacketRoundTrip` | waker/src/lib.rs:203-212 | the address can be read back from its packet: bytes 6..12 are the address, and the packet is the one built for it |
| `MagicPacketFormat.MagicPacketInjective` | waker/src/lib.rs:203-212 | the packet is a function of the address alone, and different addresses give different packets |
| `MagicPacketFormat.ExamplePacket` | waker/tests/magic_packet.rs:21-28 | the packet for 01 23 45 67 89 AB is the tests' literal 102-byte expected packet |
| `Waker.CreateMagicPacketImpl` | waker/src/lib.rs:202-212 | the 16-round append loop, starting from six 0xFF bytes, builds exactly the magic packet for the address |
| `Waker.CreateMagicPacket` | waker/src/lib.rs:192-200 | fails exactly when the address conversion fails, with the same error; otherwise returns a 102-byte packet from which the converted address reads back |
| `Waker.HexVal` | waker/src/lib.rs:229-236 | succeeds exactly on the characters 0-9, a-f and A-F, always with a value below 16; any other character fails with InvalidByteInMac carrying that character as a one-character string |
| `Waker.HexValOfDigit` | waker/src/lib.rs:229-233 | the lower-case and the upper-case digit for each value 0..15 both decode to that value (case-insensitive decoding) |
| `Waker.DigitOfHexVal` | waker/src/lib.rs:229-233 | a character that decodes to v is the lower- or upper-case digit for v, so the decoding is the inverse of digit formatting |
| `Waker.WakerTestVectors` | waker/tests/magic_packet.rs:30-53 | if the parser maps "01:23:45:67:89:AB" to its bytes, the string and byte forms give the expected packet; a 5-byte slice fails with InvalidLength(5); the parser's InvalidLength(14) for the 5-group string is passed on |
| `WakeOnLan.CreateMagicPacketImpl` | wakeonlan/src/lib.rs:81-91 | the earlier copy of the 16-round loop builds exactly the magic packet for the address |
| `WakeOnLan.CreateMagicPacket` | wakeonlan/src/lib.rs:71-79 | only the conversion step can fail, and its error is returned unchanged; with 6 bytes available the 102-byte packet for them is always built |
| `WakeOnLan.SameBytesSamePacket` | wakeonlan/src/lib.rs:188-201 | a string that parses to some bytes gives the same result as those bytes as an array, a slice or a Mac |
| `WakeOnLan.WakeOnLanTestVectors` | wakeonlan/src/lib.rs:180-215 | if the parser maps "01:23:45:67:89:AB" to its bytes and rejects "01:23:45:67:89" with InvalidMacAddress of that string, then the string and array forms give the expected packet, a 5-byte slice fails with InvalidLength(5), and the 5-group string fails with that InvalidMacAddress |
| `WakeOnLan.WakeOnLanMacVector` | wakeonlan/src/lib.rs:227-228 | the `Mac` form of 01:23:45:67:89:AB gives the expected packet, whatever the parser |
| `MacTypes.AsMacBytes` | wakeonlan/src/errors.rs:31-33 | a Mac or a 6-byte array always converts; a byte slice converts exactly when it is 6 long, and otherwise fails with InvalidLength of its length; a string converts as the parser says |
| `MacTypes.ErrorMessage` | wakeonlan/src/errors.rs:24-32 | the display text is the variant's fixed prefix followed by its payload: the offending fragment, the original string, or the slice length in canonical decimal (digits whose value is the length, no leading zero) |
| `MacTypes.VariantOfMessage` | wakeonlan/src/errors.rs:24-32 | the three display prefixes differ at fixed positions, so the text tells the variant |
| `MacTypes.ErrorMessageInjective` | wakeonlan/src/errors.rs:22-34 | the three display messages never coincide for different errors, so the message identifies the error and its payload |
| `AliasResolver.BestIndex` | waker-cli/src/main.rs:249-267 | no machines gives no match; a match is a position in the list whose score is strictly positive |
| `AliasResolver.ScanFromResult` | waker-cli/src/main.rs:253-264 | from any point of the scan where best_score and best_match hold their intended meaning, the scan ends with the first highest positive score among the entries it reads, or none if none is positive |
| `AliasResolver.BestIndexIsFirstMaximum` | waker-cli/src/main.rs:250-266 | the result is None exactly when every entry read scores at most 0; otherwise it is the first entry read with the highest score, so ties go to the earliest |
| `AliasResolver.LaterEntriesIgnored` | waker-cli/src/main.rs:261-263 | the scan stops after an entry whose score is close to the upper bound: replacing everything after it does not change the result |
| `AliasResolver.FullScanIsFirstMaximum` | waker-cli/src/main.rs:253-266 | with no early exit, the result is the first overall maximum, or None when every score is at most 0 |
| `AliasResolver.EarlyExitAgreesWithFullScan` | waker-cli/src/main.rs:253-264 | when nothing after the first close-to-upper-bound entry scores higher than that entry, stopping early gives the full scan's result |
| `AliasResolver.AnyExceeds` | waker-cli/src/main.rs:283-287 | true exactly when some score is strictly above the threshold |
| `WakerCli.Data.FindBestMachine` | waker-cli/src/main.rs:249-267 | the loop returns the machine at the resolver's position; no machines gives None; a returned machine is in the list and scores above 0; the list is not modified |
| `WakerCli.Data.IsDuplicateName` | waker-cli/src/main.rs:283-287 | a name is a duplicate exactly when some stored name scores strictly above 0.9 against it |
| `WakerCli.Data.PromptMachine` | waker-cli/src/main.rs:269-309 | returns no machine exactly when the name is a duplicate; otherwise fails exactly when the address does not parse, passing on the parse error, and otherwise returns the named machine with the parsed address |
| `WakerCli.Data.AddMachine` | waker-cli/src/main.rs:227-247 | a prompted machine the user confirms is appended at the end, with existing entries and their order unchanged; otherwise the list is unchanged; a prompt error is returned unchanged, and it is the only way to fail |
| `WakeOnLanCli.Data.FindBestMachine` | wakeonlan-cli/src/main.rs:123-141 | the loop returns the machine at the resolver's position; no machines gives None; a returned machine is in the list and scores above 0 |
| `WakeOnLanCli.Data.IsDuplicateName` | wakeonlan-cli/src/main.rs:157-161 | a name is a duplicate exactly when some stored name scores strictly above 0.9 against it |
| `WakeOnLanCli.Data.PromptMachine` | wakeonlan-cli/src/main.rs:143-180 | returns no machine exactly when the name is a duplicate; otherwise returns the machine with the typed name and address text |
| `WakeOnLanCli.Data.AddMachine` | wakeonlan-cli/src/main.rs:101-121 | a prompted machine the user confirms is pushed onto the end; otherwise the list is unchanged |
| `WakeOnLanCli.WakeMachine` | wakeonlan-cli/src/main.rs:208-209 | waking fails exactly when the stored address text does not parse, with the parser's error |
| `CliValidators.TrimEmptyIffBlank` | wakeonlan-cli/src/utils.rs:41 | the trimmed text is empty exactly when every character is Unicode whitespace |
| `CliValidators.ValidateText` | wakeonlan-cli/src/utils.rs:39-46 | never returns the outer error; Invalid("Field cannot be empty") exactly for empty or whitespace-only input; Valid exactly when some character is not whitespace |
| `CliValidators.ValidateMac` | wakeonlan-cli/src/utils.rs:31-37 | never returns the outer error; Valid exactly when the parser accepts the input; otherwise Invalid carrying exactly the parse error's display text, from which that error is determined |
| `ServerUtils.GetEnv` | waker-server/src/server/utils.rs:4-11 | the parsed value when the variable is set and parses, the default otherwise |
| `ServerUtils.IsEnv` | waker-server/src/server/utils.rs:50-55 | true exactly when the variable is set and not empty |
| `ServerUtils.ParseUsize` | waker-server/src/server/utils.rs:25-26 | the empty string, a leading character other than '+' or a digit (whitespace, '-') and values above usize::MAX are rejected |
| `ServerUtils.ParseUsizeWellFormed` | waker-server/src/server/utils.rs:25-26 | an accepted string is an optional '+' followed by one or more ASCII digits, with nothing else anywhere ("8 ", "4x", "++4" and a lone "+" are rejected) |
| `ServerUtils.ParseUsizeOfDigits` | waker-server/src/server/utils.rs:25-26 | every non-empty digit string, leading zeros included ("08" gives 8), parses to its value exactly when that value fits in a usize, and a leading '+' gives the same result; with ParseUsizeWellFormed, the parser accepts exactly an optional '+' then one or more digits whose value fits |
| `ServerUtils.ParseUsizeOfDisplay` | waker-server/src/server/utils.rs:25-27 | every count up to usize::MAX, written in decimal with or without '+', parses to that count |
| `ServerUtils.ParseUsizeRejectsOverflow` | waker-server/src/server/utils.rs:26-29 | a decimal count above usize::MAX does not parse, so NUM_THREADS keeps the default |
| `ServerUtils.ClampThreads` | waker-server/src/server/utils.rs:37-47 | 0 becomes 1, a count above cores becomes cores, a count in [1, cores] is kept, and with cores at least 1 the result lies in [1, cores] |
| `ServerUtils.RequestedThreads` | waker-server/src/server/utils.rs:22-35 | an explicit argument wins; otherwise a NUM_THREADS value that parses; otherwise the default |
| `ServerUtils.ThreadWarnings` | waker-server/src/server/utils.rs:25-45 | the intended warnings, in the corrected form of the Findings row: the NUM_THREADS parse warning first when the variable is set and does not parse (even when an argument overrides it), the zero-count warning when the count asked for is 0, and last a warning naming the count provided when it exceeds cores; no other warning |
| `ServerUtils.GetNumThreads` | waker-server/src/server/utils.rs:18-48 | the result is the clamped count of the precedence chain (argument, then NUM_THREADS, then default) and lies in [1, cores]; the warnings are the intended ones, in order |
| `ServerUtils.GetNumThreadsAsWritten` | waker-server/src/server/utils.rs:42-45 | the code as written returns the same count, but its last warning names cores as the count provided |
| `ServerUtils.TooManyThreadsWarningMisreports` | waker-server/src/server/utils.rs:42-45 | whenever the clamp fires, the as-written warning differs from the intended one |
| `ServerUtils.TooManyThreadsWarningNamesProvided` | waker-server/src/server/utils.rs:44 | the intended warning determines the count that was provided |

## Findings

| source | as written | input that shows it | evidently intended | confidence | as-written member | corrected member |
|---|---|---|---|---|---|---|
| waker-server/src/server/utils.rs:42-45 | `num_threads` is set to `cores` before the warning is formatted, so the warning always reports `cores` as the count provided | `threads = Some(8)` with 4 cores: the warning reads "Number of threads provided (4) was greater than the number of cores (4)" | the warning names the count provided (8) | high; not executed | `ServerUtils.GetNumThreadsAsWritten` with `ServerUtils.TooManyThreadsWarningMisreports` | `ServerUtils.GetNumThreads` with `ServerUtils.TooManyThreadsWarningNamesProvided` |

## Left out

- UDP sending (`wake_device`, `wake_device_impl`, `send_magic_packet*`): socket bind, the broadcast option and `send_to` are operating-system I/O. The loopback send tests are not modelled.
- `Mac` parsing and formatting (`FromStr`, `Display`, `UpperHex`) and the `AsMacBytes` implementations: waker/src/types.rs and wakeonlan/src/types.rs (for `Mac`) are not part of this model. The string parser is a parameter. The byte-slice rule is taken from the `InvalidLength` documentation and the tests.
- `string_similarity` and `is_close_to_upper_bound` come from an outside crate and compute floating-point scores. They are parameters returning `real` and `bool`.
- The CLI plumbing is not modelled: argument parsing, the interactive prompts and their cancellation, loading and saving the configuration, coloured output, `format_machine_details`, `run`, the console message in each `wake_machine`, and the send in waker-cli's.
- `WakerCli.Data.AddMachine`, `WakeOnLanCli.Data.AddMachine`: the model does not say that saving the configuration after the push can fail, because saving is file I/O.
- `WakerCli.Data.PromptMachine`, `WakeOnLanCli.Data.PromptMachine`: the typed answers are parameters. The model leaves out the `existing` argument, which only pre-fills the prompts, and it leaves out the re-prompting done by the validators.
- wakeonlan-cli/src/main.rs:191-206 holds a second copy of `validate_mac` and `validate_text`, identical to wakeonlan-cli/src/utils.rs. Both copies are modelled once, by `CliValidators.ValidateMac` and `CliValidators.ValidateText`.
- The `waker-server` routes, async handlers, `main` and logging set-up are not modelled: they are thin adapters.
- The default thread count `(cores as f64 * 0.75).round()` is floating-point arithmetic, so the model takes it as a parameter. The CPU count is a parameter too.
- `ServerUtils.GetEnv`, `ServerUtils.IsEnv`, `ServerUtils.GetNumThreads`: an environment variable is `None` both when it is unset and when it is not valid Unicode, because both make `var` return an error. The `warn!` calls are modelled as a returned list of messages, not as log output.
- `ServerUtils.ParseUsize` assumes a 64-bit target (`usize::MAX` = 2^64 - 1).
- `create_magic_packet` has one error type here, `MacAddressError`. In Rust, the error type of the array and `Mac` forms can never be produced.
- The benchmarks, the serde feature tests, and the unused `MagicPacket` struct with a `data` field in wakeonlan/src/types.rs are not modelled. A packet is a plain byte sequence.
- The tests' 102-byte expected packet is written here six bytes per group, with the same values in the same order.
