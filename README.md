# vmaf.py, modelled in Dafny

`vmaf.py` is a small Windows script. It runs the `ab-av1` tool to measure the
VMAF score of a re-encoded video against its reference. It then labels the
score, formats how long the measurement took, and mails a report when the
SMTP settings in `config.toml` allow it. This project models the script's
decision logic and proves properties of it:

- `wrappers.dfy`: `Option` and `Result`.
- `quality.dfy` (module `Quality`): `score_to_quality`. The score is a Python
  float, so it is modelled as a finite real, one of the two infinities, or NaN.
  Every comparison with NaN is false.
- `duration.dfy` (module `Duration`): `format_duration`.
  - `FormatDuration` works on whole seconds. `FormatElapsed` follows the
    script's float `divmod` and `int()` steps over exact reals.
  - The partner of the formatter is a reader, `ParseDuration`, for the texts it
    writes. The round trip shows that no two durations are written alike.
  - The seven-way case split of the script is shown to be a unit-by-unit rule:
    - the leading unit is unpadded;
    - minutes appear only after hours, and only when non-zero;
    - seconds appear after a larger unit only when non-zero, padded with `:02d`.
- `mail.dfy` (module `Mail`): whether `send_email` goes on to send.
  - The loaded TOML table is a map of values.
  - A Python exception raised on the way (a missing key, indexing a non-table,
    `len` of a number) is an `Err` result.
  - Also modelled: the default file `create_config_file` writes.
- `command.dfy` (module `Command`): the argument vector `main` hands to the
  measurement tool. `os.path.join` is modelled as Windows' `ntpath.join`.

Three members model nothing in the script; they are the independent
definitions the contracts are checked against: `Duration.ParseDuration`, a
reader for the formatted texts; `Duration.ByUnitRule`, the formatting rule
stated unit by unit; and `Command.FlagValue`, a reader of flag-value pairs.

Where the intent one might read into the script and its code differ, the model
follows the code. The default configuration has no `enable` key, which one
could take to mean "mail disabled". In the code, `send_email` reads
`config["smtp"]["enable"]` first and raises a `KeyError`. The caller's generic
handler (vmaf.py:65-69) then reports the run as a failed inspection. So the
mail is not silently skipped.

## Model

| member | source | states |
|---|---|---|
| `Quality.ScoreToQuality` | vmaf.py:119-129 | the label returned has its threshold met by the score, and no better label's threshold is met (inclusive lower bounds 98, 95, 90, 80) |
| `Quality.FiniteBands` | vmaf.py:119-129 | for a finite score, each label holds exactly on its half-open band: [98, ∞), [95, 98), [90, 95), [80, 90), below 80 |
| `Quality.BoundaryValues` | vmaf.py:120-127 | each threshold belongs to the band above it: 98 is perfect, 97.9 and 95 very good, 90 good, 80 fair, 79.9 poor |
| `Quality.NonFiniteScores` | vmaf.py:119-129 | `inf` is perfect; `-inf` and NaN fail every comparison and fall to the last branch (poor) |
| `Quality.Monotone` | vmaf.py:119-129 | a score that is `<=` another never gets a better label |
| `Quality.Text` | vmaf.py:121-129 | each label's text is `质量` followed by a two-character verdict |
| `Quality.TextInjective` | vmaf.py:121-129 | the five label texts are distinct, so the mail subject names exactly one band |
| `Duration.Split` | vmaf.py:144-145 | the two `divmod` calls give minutes and seconds below 60 that add back up to the input |
| `Duration.SplitUnique` | vmaf.py:144-145 | a decomposition with minutes and seconds below 60 is the only one `divmod` can produce for its total |
| `Duration.RealSplit` | vmaf.py:144-148 | the float `divmod` steps followed by `int()` give normal parts whose total is the floor of the elapsed seconds |
| `Duration.FormatElapsed` | vmaf.py:143-164 | formatting a float duration gives the same text as formatting its whole (floored) seconds |
| `Duration.Decimal` | vmaf.py:151-164 | `{n}` is non-empty, starts with `0` only for zero, and has one digit below 10 and two from 10 to 99 |
| `Duration.DecimalDigits` | vmaf.py:151-164 | `{n}` consists of decimal digits only |
| `Duration.DecimalRoundTrip` | vmaf.py:151-164 | reading the digits of `{n}` back gives `n` |
| `Duration.Pad2` | vmaf.py:151-160 | `{n:02d}` has at least two characters, and exactly two below 100 |
| `Duration.Pad2RoundTrip` | vmaf.py:151-160 | `{n:02d}` consists of digits and reads back as `n` |
| `Duration.Render` | vmaf.py:149-164 | the seven branches are one rule (`ByUnitRule`): the leading unit unpadded, then minutes (only after hours) and seconds, each padded and present exactly when non-zero |
| `Duration.FormatDuration` | vmaf.py:143-164 | the text is the unit-by-unit rule applied to the hours, minutes and seconds of the two `divmod` calls |
| `Duration.UnderOneMinute` | vmaf.py:163-164 | below one minute the text is the unpadded number followed by `秒` |
| `Duration.ZeroSeconds` | vmaf.py:164 | zero elapsed seconds is written `0秒` |
| `Duration.NoLeadingZero` | vmaf.py:149-164 | the text starts with `0` exactly when the duration is zero: the leading unit is never padded |
| `Duration.ExampleSeconds` | vmaf.py:164 | 45 seconds is written `45秒` |
| `Duration.ExampleMinutes` | vmaf.py:160 | 125 seconds is written `2分钟05秒` |
| `Duration.ExampleHoursSeconds` | vmaf.py:153 | 3605 seconds is written `1小时05秒`: zero minutes are left out, seconds still padded |
| `Duration.ExampleHoursMinutes` | vmaf.py:155 | 3660 seconds is written `1小时01分钟` |
| `Duration.ExampleAllUnits` | vmaf.py:151 | 3661 seconds is written `1小时01分钟01秒` |
| `Duration.RenderRoundTrip` | vmaf.py:149-164 | reading any rendered decomposition back gives the seconds it stands for |
| `Duration.FormatRoundTrip` | vmaf.py:143-164 | reading the formatted text back gives the number of seconds formatted |
| `Duration.FormatInjective` | vmaf.py:143-164 | different numbers of seconds are never formatted alike |
| `Mail.SmtpTable` | vmaf.py:79 | `config["smtp"]` succeeds exactly when the key exists and holds a table, and then yields that table |
| `Mail.FirstMissing` | vmaf.py:79-86 | the eight keys are read in order: the KeyError names the first one missing, all before it being present |
| `Mail.AnyEmpty` | vmaf.py:90-93 | the `or` chain of `len(...) == 0`, left to right: true exactly when an empty field comes before any field without a length; a TypeError naming the first field without a length reached before any empty one; false exactly when every field has a non-zero length |
| `Mail.Eligibility` | vmaf.py:79-96 | the check goes on only after all eight keys are read; it sends only when `enable` is truthy and every required field has a non-zero length, and then with the seven values read from the table |
| `Mail.AnyEmptyOfStrings` | vmaf.py:90-93 | over string fields `len` never raises, and the test is false exactly when all four strings are non-empty |
| `Mail.EligibleIff` | vmaf.py:79-96 | on a table with all eight keys and string fields, the check never raises, and mail is sent exactly when `enable` is truthy and server, sender, password and receiver are non-empty |
| `Mail.DisabledSkips` | vmaf.py:88-96 | with every key present and `enable` falsy, the function returns early whatever the other fields hold |
| `Mail.EnabledNoLengthFails` | vmaf.py:88-93 | with every key present and `enable` truthy, a required field without a length (a number or boolean) reached before any empty one raises that field's TypeError instead of skipping the mail |
| `Mail.MissingKeyFails` | vmaf.py:79-86 | a missing key among the eight raises a KeyError and is never a skip |
| `Mail.OtherFieldsIrrelevant` | vmaf.py:79-96 | the values of `port`, `name_sender` and `name_receiver` never change whether the check raises or sends |
| `Mail.DefaultConfig` | vmaf.py:172-182 | the default `smtp` table holds exactly the seven keys after `enable`: the six strings empty and `port` 25; `enable` is absent |
| `Mail.CreateConfigFile` | vmaf.py:168-184 | an existing file is left as it is; a new file holds the default `smtp` table: seven keys, no `enable`, the strings empty and `port` 25 |
| `Mail.CreateConfigIdempotent` | vmaf.py:171 | running `create_config_file` a second time leaves the file as the first run did |
| `Mail.FreshConfigFails` | vmaf.py:172-182 | on the file `create_config_file` writes, the check raises a KeyError for `enable` |
| `Mail.FreshConfigEnabledSkips` | vmaf.py:172-182 | a fresh file with only `enable = true` added still sends nothing, since the required fields are empty |
| `Mail.IntendedDefaultConfig` | vmaf.py:172-182 | the default table with `enable = false` is well formed and does not enable mail |
| `Mail.IntendedFreshConfigSkips` | vmaf.py:172-182 | with `enable = false` in the default, a fresh file makes the check return early without an error |
| `Command.JoinPath` | vmaf.py:20 | the joined path starts with the directory and ends with the file name, with at most one backslash between |
| `Command.JoinAddsSeparator` | vmaf.py:20 | a backslash is added exactly when the directory is non-empty, does not end in a separator and is not a bare drive |
| `Command.VmafCommand` | vmaf.py:19-26 | the six arguments in order: the tool joined onto the script's directory, `vmaf`, `--reference`, the reference path, `--distorted`, the distorted path |
| `Command.CommandRoundTrip` | vmaf.py:19-26 | the first argument is the script's directory followed (after at most one backslash) by `ab-av1.exe`; then `vmaf`; then the reference flag and path before the distorted flag and path; read as flag-value pairs, each flag gives back its own path |

## Left out

- Starting and waiting for the tool (vmaf.py:28-38), the Ctrl+Break signal on interrupt (vmaf.py:61-64) and the `input()` prompts: process control and console I/O.
- The clock (vmaf.py:34-37): the elapsed time is a parameter of `FormatElapsed`.
- `FormatElapsed`: requires a non-negative duration. A wall clock that steps back between the two `time.time()` calls could make `run_time` negative, and the script would then print a negative hours part; not modelled.
- `float(output)` (vmaf.py:47): the score is taken as already parsed. Double-precision rounding is not modelled; finite scores are exact reals.
- The mail subject and body text (vmaf.py:47-58), `os.path.basename` and the MIME and SMTP session (vmaf.py:98-115): string assembly and network I/O.
- Reading and writing `config.toml` and `os.path.exists` (vmaf.py:77-78, 170-171, 183-184): file I/O. The model works on the loaded table. TOML dates and non-finite floats are not among the modelled values.
- `os.path.join`: UNC paths (`\\server\share`) are not modelled, only drive letters.
- `main`'s `try`/`except` flow (vmaf.py:17-71), logging, `get_script_path` and the argument parser: orchestration and I/O.
- How `ab-av1` itself parses its arguments is not part of the script; `FlagValue` reads them as plain flag-value pairs.
- `Mail.CreateConfigFile`: models the table written; the TOML text produced by `toml.dumps` is not modelled.

## Findings

| source | as written | input that shows it | evidently intended | confidence | as-written member | corrected member |
|---|---|---|---|---|---|---|
| vmaf.py:172-182 | the default `smtp` table has no `enable` key, yet `send_email` reads `config["smtp"]["enable"]` first (vmaf.py:79) | a first run with no `config.toml`: the measurement succeeds, then a `KeyError` reports the run as a failed inspection | the default holds `enable = false`, so a fresh file skips the mail | medium, not executed | `Mail.FreshConfigFails` | `Mail.IntendedFreshConfigSkips` |
