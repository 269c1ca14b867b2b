# Dropbox save agent, modelled in Dafny

A Huginn agent that takes the file carried by each incoming event and uploads it to
Dropbox. It normalises the target directory to start with `/` and joins the directory
and the filename with `/`. It asks Dropbox whether that path is taken. If it is free,
the file is uploaded there. If it is taken, the overwrite mode decides:

- `off`: nothing is uploaded;
- `on`: the file is uploaded over the existing one;
- `rename`: the file is uploaded once under a filename with a numeric suffix appended.

When the agent is saved, its options are validated.

The model lives in three modules:

- `Wrappers` (`wrappers.dfy`): `Option` and `Result`, used where the agent has `nil` or raises.
- `Text` (`text.dfy`): the Ruby string operations the agent uses. These are `\d`,
  `String#to_i` on a digit run, `Integer#to_s`, `String#include?`, and ActiveSupport's
  `blank?` (empty or only `[[:space:]]`, i.e. Unicode White_Space).
- `Agents` (`agents.dfy`): everything else. The class `DropboxSaveAgent` has the
  agent's raw options and two recorded effects:
  - `errors`, which `ValidateOptions` appends to;
  - `uploads`, the `dropbox.upload` calls, which `Receive`, `HandleEvent`,
    `HandleOverwrite` and `SaveFile` append to.

  `SaveFile` is proved to append one `Upload(path, content)`. Each of the other
  methods is proved equal to a pure function: `ValidateOptions` to `OptionErrors`,
  `Receive` to `ReceiveEffect`, `HandleEvent` to `EventEffect`, `HandleOverwrite` to
  `OverwriteUploads`. The lemmas are stated about those functions.

The Dropbox client is an input. Each `Event` carries:

- the options as `interpolated` resolves them. The agent resolves them against its own
  context, not against the event, so they are the same for every event; the model
  allows a different record per event and is therefore more general;
- the file `get_io` resolves (`None` when there is none);
- `lookup`, a function giving what `dropbox.find` answers for a path while the event is
  handled. The answer is found, `nil`, or an exception.

An exception raised while an event is handled is returned as `Effect.raised`. It ends
`receive`, and the uploads made before it stay made.

For a name ending in `_N`, `next_filename` appends `_<N+1>` and keeps the old suffix,
so `report_2` becomes `report_2_3` (`NextFilenameKeepsOldSuffix`). It does not replace
the suffix.

## Model

| member | source | states |
|---|---|---|
| `Agents.SuffixMatchesAt` | lib/huginn_dropbox_save_agent/dropbox_save_agent.rb:17 | definition of where `/_(\d+)\z/` matches: an `_` at index k-1 followed by a non-empty run of ASCII digits (`\d`, `Text.IsDigit`) up to the end of the string; the match is unique (`RenameSuffixOfMatch`) |
| `Agents.RenameSuffixOfMatch` | lib/huginn_dropbox_save_agent/dropbox_save_agent.rb:95-98 | wherever `/_(\d+)\z/` can match (an `_` followed by digits up to the end), the captured number is the value of exactly those digits: the match is unique |
| `Agents.RenameSuffixAbsent` | lib/huginn_dropbox_save_agent/dropbox_save_agent.rb:95-97 | the match is absent if and only if no `_<digits>` suffix exists |
| `Agents.NextFilename` | lib/huginn_dropbox_save_agent/dropbox_save_agent.rb:92-103 | the name is a strict prefix of the result, which continues with `_` and then a non-empty run of digits to the end, so the rename regex matches the result right after the name |
| `Agents.NextFilenameWithoutSuffix` | lib/huginn_dropbox_save_agent/dropbox_save_agent.rb:100-102 | a name without a `_<digits>` suffix becomes the name followed by `_1` |
| `Agents.NextFilenameWithSuffix` | lib/huginn_dropbox_save_agent/dropbox_save_agent.rb:95-99 | a name ending in `_<digits>` of value N becomes the whole name followed by `_` and the decimal form of N+1 |
| `Agents.NextFilenameIncrements` | lib/huginn_dropbox_save_agent/dropbox_save_agent.rb:95-102 | the number read back from the renamed name is N+1 after a suffix N, and 1 when there was none |
| `Agents.NextFilenameKeepsOldSuffix` | lib/huginn_dropbox_save_agent/dropbox_save_agent.rb:99 | `report_2` becomes `report_2_3` and `report` becomes `report_1` |
| `Text.DigitsValueOfDecimalString` | lib/huginn_dropbox_save_agent/dropbox_save_agent.rb:98-99 | `to_i` of the digits `Integer#to_s` writes gives back the number |
| `Text.DecimalString` | lib/huginn_dropbox_save_agent/dropbox_save_agent.rb:99 | the interpolated number is a non-empty digit string without a leading zero |
| `Agents.NormalisedPath` | lib/huginn_dropbox_save_agent/dropbox_save_agent.rb:86-87 | the directory starts with `/`, ends with the configured path, and is at most one character longer |
| `Agents.NormalisedPathIsShortest` | lib/huginn_dropbox_save_agent/dropbox_save_agent.rb:86-87 | no string that starts with `/` and ends with the configured path is shorter than the normalised directory |
| `Agents.FullFilePathParts` | lib/huginn_dropbox_save_agent/dropbox_save_agent.rb:83-90 | the path starts with `/`; it ends with `/` and the filename (the renamed one when incrementing); the part before that `/` is the normalised directory; a directory starting with `/` is kept as it is, any other gets exactly one `/` in front |
| `Agents.RenamedPathExtendsPath` | lib/huginn_dropbox_save_agent/dropbox_save_agent.rb:84-89 | the incremented path strictly extends the plain one, so the two always differ |
| `Agents.TrailingSlashIsKept` | lib/huginn_dropbox_save_agent/dropbox_save_agent.rb:87-89 | `/huginn/` with `file` gives `/huginn//file`; `huginn` gives `/huginn/file` |
| `Text.ContainsIffOccurs` | lib/huginn_dropbox_save_agent/dropbox_save_agent.rb:69 | `include?` is true exactly when the text occurs at some index of the message |
| `Agents.FileExists` | lib/huginn_dropbox_save_agent/dropbox_save_agent.rb:66-70 | taken if and only if `find` returned metadata; free if and only if it returned nil or raised an API error mentioning `409`; any other exception comes back unchanged |
| `Agents.ConflictAnywhereInMessage` | lib/huginn_dropbox_save_agent/dropbox_save_agent.rb:68-69 | an API error with `409` anywhere in its message means free; a non-API error with the same message is re-raised |
| `Agents.EventEffect` | lib/huginn_dropbox_save_agent/dropbox_save_agent.rb:51-60 | at most one upload per event; none when it raises; an upload always carries the event's file content |
| `Agents.EventWithoutFile` | lib/huginn_dropbox_save_agent/dropbox_save_agent.rb:52-53 | an event without a file gives no upload and no exception |
| `Agents.EventDecisionTable` | lib/huginn_dropbox_save_agent/dropbox_save_agent.rb:55-81 | for an event with a file: a non-409 lookup exception propagates with no upload; a free destination gets one upload to the plain path in every mode; when it is taken, `off` and unknown modes upload nothing, `on` uploads once to the plain path, `rename` once to the incremented path |
| `Agents.EventUploadsIff` | lib/huginn_dropbox_save_agent/dropbox_save_agent.rb:55-81 | an upload happens if and only if there is a file and the destination is free or is taken with mode `on` or `rename` |
| `Agents.EventLooksUpPlainPathOnly` | lib/huginn_dropbox_save_agent/dropbox_save_agent.rb:66-79 | only the plain destination is looked up: the store's answer for any other path, the renamed one included, never changes the outcome (no recheck after renaming) |
| `Agents.EventUploadTarget` | lib/huginn_dropbox_save_agent/dropbox_save_agent.rb:72-81 | an upload goes to the plain destination, or to the incremented one only in `rename` mode when the destination was found |
| `Agents.Sequenced` | lib/huginn_dropbox_save_agent/dropbox_save_agent.rb:46 | when each handler uploads at most once, running them in turn uploads at most once per handler |
| `Agents.SequencedConcat` | lib/huginn_dropbox_save_agent/dropbox_save_agent.rb:46 | running two lists of handlers back to back runs the first list and, unless it raised, then the second |
| `Agents.ReceiveEffect` | lib/huginn_dropbox_save_agent/dropbox_save_agent.rb:45-47 | receiving n events makes at most n uploads |
| `Agents.ReceiveConcat` | lib/huginn_dropbox_save_agent/dropbox_save_agent.rb:45-47 | events are handled in the order given: receiving `a + b` gives `a`'s uploads followed by `b`'s, unless `a` raised |
| `Agents.ReceiveOne` | lib/huginn_dropbox_save_agent/dropbox_save_agent.rb:45-47 | receiving one event is handling that event |
| `Agents.ReceiveStopsAtException` | lib/huginn_dropbox_save_agent/dropbox_save_agent.rb:45-47 | the first event that raises ends `receive`: that exception is the result, the uploads are those of the earlier events, and later events are not handled |
| `Agents.OptionErrors` | lib/huginn_dropbox_save_agent/dropbox_save_agent.rb:35-39 | one message each if and only if `path` is blank or missing, `filename` is blank or missing, or `overwrite_mode` is not one of `off`/`on`/`rename`; messages come in that order with no repeats; none for valid options |
| `Agents.RenameSuffix` | lib/huginn_dropbox_save_agent/dropbox_save_agent.rb:95-98 | definition of the match and `[1].to_i`; characterised by `RenameSuffixOfMatch` and `RenameSuffixAbsent` |
| `Agents.FullFilePath` | lib/huginn_dropbox_save_agent/dropbox_save_agent.rb:83-90 | definition of `full_file_path`; characterised by `FullFilePathParts` and `RenamedPathExtendsPath` |
| `Agents.OverwriteUploads` | lib/huginn_dropbox_save_agent/dropbox_save_agent.rb:72-81 | definition of the uploads `handle_overwrite` makes; characterised by `EventDecisionTable` and `EventUploadTarget` |
| `Agents.IsConflict` | lib/huginn_dropbox_save_agent/dropbox_save_agent.rb:68-69 | definition: a `Dropbox::API::Error` whose message includes `409`; its use is characterised by `FileExists` and `ConflictAnywhereInMessage` |
| `Agents.Present` | lib/huginn_dropbox_save_agent/dropbox_save_agent.rb:36-37 | definition of `options[key].present?`: the key is set and its value is not blank; used by `OptionErrors` |
| `Agents.KnownMode` | lib/huginn_dropbox_save_agent/dropbox_save_agent.rb:38 | definition of `OVERWRITE_MODES.include?(options['overwrite_mode'])`; used by `OptionErrors` |
| `Text.Contains` | lib/huginn_dropbox_save_agent/dropbox_save_agent.rb:69 | definition of `String#include?`; characterised by `ContainsIffOccurs` |
| `Text.DigitsValue` | lib/huginn_dropbox_save_agent/dropbox_save_agent.rb:98 | definition of `to_i` on the captured digits (leading zeros ignored); characterised by `DigitsValueOfDecimalString` |
| `Text.IsBlank` | lib/huginn_dropbox_save_agent/dropbox_save_agent.rb:36-37 | definition of ActiveSupport's `blank?` on a string: empty or only `[[:space:]]` characters, the negation of `present?` |
| `Agents.DropboxSaveAgent.ValidateOptions` | lib/huginn_dropbox_save_agent/dropbox_save_agent.rb:35-39 | appends exactly `OptionErrors` of the agent's options to its errors |
| `Agents.DropboxSaveAgent.Receive` | lib/huginn_dropbox_save_agent/dropbox_save_agent.rb:45-47 | the loop appends exactly `ReceiveEffect`'s uploads and returns its exception |
| `Agents.DropboxSaveAgent.HandleEvent` | lib/huginn_dropbox_save_agent/dropbox_save_agent.rb:51-60 | appends exactly `EventEffect`'s uploads and returns its exception |
| `Agents.DropboxSaveAgent.SaveFile` | lib/huginn_dropbox_save_agent/dropbox_save_agent.rb:62-64 | appends one upload of the content to the given path |
| `Agents.DropboxSaveAgent.HandleOverwrite` | lib/huginn_dropbox_save_agent/dropbox_save_agent.rb:72-81 | appends exactly `OverwriteUploads`: nothing for `off` or an unknown mode, the plain path for `on`, the incremented path for `rename` |

## Left out

- The Dropbox client (`dropbox.find`, `dropbox.upload`, the `DropboxConcern` credentials) is a network library. Its `find` answers are an input on each event. Its uploads are recorded, not performed.
- An exception raised by `dropbox.upload` is not modelled: every upload is recorded as done.
- `get_io` and `io.read` (file-pointer resolution and byte I/O) are not modelled. The event carries the file's bytes, or nothing. The stream is never closed by the agent, so nothing is said about closing.
- Liquid interpolation of the options is not modelled. Each event carries the options as `interpolated` resolves them, as plain strings; the agent resolves them without the event, so the per-event record is a generalisation. The raw options that validation reads are a map from keys to strings. Non-string option values (numbers, lists) are not modelled.
- `default_options`, `description`, `working?`, `cannot_be_scheduled!`, `no_bulk_receive!` and `consumes_file_pointer!` are framework settings with no logic of their own.
- Concurrent writers racing on one path: the lookup and the upload are two separate calls. Events are handled one at a time, so the model has no concurrency.
- The text of exception messages is kept as an opaque string. Only the test for `409` in it is modelled.
