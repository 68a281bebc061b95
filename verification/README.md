# fixgitcommits — a verified model

`fixgitcommits.py` is an interactive script that corrects the author and
committer identity of past commits in a git repository. It lists the
identities found in history (`git shortlog --summary --numbered --email`),
lets the operator pick the wrong one, then a new email and a new name
(from the other identities in history, the `user.email` / `user.name`
values configured in any scope, or typed by hand), asks for a final
"Y", and runs `git filter-branch` with an environment filter that replaces
every author and committer whose email is the wrong one.

This project models that core in Dafny:

- `core.dfy` (`Basics`): shared values (`Identity`, `Option`, `Result`,
  the `Failure`s the script lets escape), Python's whitespace class, and
  `Strip` (`str.strip()`).
- `shortlog.dfy` (`Shortlog`): the regular expression of `gather_emails`
  written out as `ParseLine`, characterised against a position-based
  description of what the pattern matches and of the match Python's
  backtracking reports; the loop of `gather_emails` as `GatherEmails`.
- `config.dfy` (`Config`): `split(maxsplit=1)` as `SplitOnce`, the key
  filter of `git_config_items` as `ConfigFilter`, and its loop as
  `ConfigItems`, including the `ValueError` raised by a line with fewer
  than two fields.
- `menu.dfy` (`Menu`): the three numbered rounds and the confirmation of
  `menu`, as staged specification functions (`Rounds`, `EmailRound`,
  `NameRound`, `Confirm`) and as the imperative `RunMenu`, whose
  dictionaries and shared counter `numb` are filled by `FillChoices`;
  rounds 2 and 3, which the script writes out twice, share `ChooseValue`.
- `history.dfy` (`History`): the environment filter applied to one commit
  (`FilterCommit`) and to a whole history (`RewriteHistory`).
- `cli.dfy` (`Cli`): the argument dispatch of `main`.

The git commands are not run: their outputs, already split into lines,
are parameters, and so are the operator's answers and the current
directory.

The swapped names in the first round of `menu` (each pair is unpacked as
`(email, name)` and stored back as `(name, email)`) cancel each other out,
so the model stores the identity as it was parsed.

The manual option of rounds 2 and 3 is numbered one past the last index
of the round's list. When that list is empty, the code does not number it
1: the loop counter still holds the previous round's last index, and the
option is one past that (`Menu.EmptyRoundKeepsCounter`). The printed
option and the prompt `[1-{numb+1}]` show that same number, and on an
empty list every index below it raises `KeyError`.

## Model

| member | source | states |
|---|---|---|
| Basics.Strip | fixgitcommits.py:60-61 | the stripped string is empty or starts and ends with a non-whitespace character |
| Basics.StripExact | fixgitcommits.py:60-61 | stripping removes exactly the leading and trailing whitespace runs and keeps everything between |
| Shortlog.ParseLine | fixgitcommits.py:40-42 | a matched name never contains `<`; a matched email is non-empty and never contains `>` |
| Shortlog.ParseLineSound | fixgitcommits.py:40-42 | every pair returned is the match Python reports: count whitespace maximal, or one short of its run when group 1 is empty; group 1 maximal so one whitespace character precedes `<`, email up to the first `>` or the end of the line |
| Shortlog.ParseLineExact | fixgitcommits.py:40-42 | for a line whose reported match has parts at given positions, the name and email are exactly those slices |
| Shortlog.ParseLineComplete | fixgitcommits.py:40-41 | any line the pattern can match in any way yields a pair |
| Shortlog.ParseLineMatches | fixgitcommits.py:40-41 | a line yields a pair if and only if the pattern matches it |
| Shortlog.ParseLineRoundTrip | fixgitcommits.py:40-43 | a summary line built from whitespace, a count, whitespace, a name, a space and `<email>` parses back to that name and email when the name has no `<` and no leading whitespace and the email is non-empty without `>` |
| Shortlog.ParseShortlog | fixgitcommits.py:36-44 | at most one pair per line |
| Basics.Where | fixgitcommits.py:39-41 | the increasing positions of exactly the elements that satisfy the test |
| Shortlog.MatchedLines | fixgitcommits.py:39-41 | the increasing positions of exactly the lines the pattern matches |
| Shortlog.ParseShortlogSelects | fixgitcommits.py:39-43 | one pair per matching line, in line order, each the match of its line |
| Shortlog.ParseShortlogAppend | fixgitcommits.py:39-43 | the lines are handled independently: the result for a concatenation is the concatenation of the results |
| Shortlog.ParseShortlogPair | fixgitcommits.py:39-43 | two lines give the first line's pair, if any, followed by the second's |
| Shortlog.ParseShortlogSingle | fixgitcommits.py:39-43 | a single line gives its own pair when the pattern matches it, and nothing otherwise |
| Shortlog.GatherEmails | fixgitcommits.py:36-44 | the loop returns exactly the pairs of the matching lines, in order |
| Shortlog.TypicalLine | fixgitcommits.py:40-43 | a tab-separated summary line yields its name and email |
| Shortlog.NameKeepsInnerWhitespace | fixgitcommits.py:40-42 | group 1 keeps trailing whitespace except the one character before `<`, and no closing `>` is needed |
| Config.SplitOnce | fixgitcommits.py:59 | when a line splits, the key is non-empty and the remainder is non-empty and starts with a non-whitespace character |
| Config.SplitOnceDefined | fixgitcommits.py:59 | a line splits if and only if it has at least two whitespace-separated fields |
| Config.SplitOnceExact | fixgitcommits.py:59 | the key is the first field and the remainder runs from the second field to the end of the line, trailing whitespace included |
| Config.LineItemsKeyExact | fixgitcommits.py:59-61 | a line contributes its stripped remainder exactly when its key equals the requested key, so a longer key never passes |
| Config.LineItemsOk | fixgitcommits.py:59 | a line contributes without failing exactly when it splits |
| Config.LineItemsValue | fixgitcommits.py:59-61 | the contribution of a line that splits, in terms of its key and remainder |
| Config.ConfigFilterAppend | fixgitcommits.py:58-62 | over a concatenation the first failure wins, otherwise the values follow each other |
| Config.ThenAssociative | fixgitcommits.py:58-62 | combining the results of consecutive stretches of lines does not depend on grouping |
| Config.KeyLines | fixgitcommits.py:58-60 | the increasing positions of exactly the lines whose key is the requested one |
| Config.ConfigFilterOkSplit | fixgitcommits.py:58-59 | filtering succeeds if and only if every line splits |
| Config.ConfigFilterOk | fixgitcommits.py:58-59 | filtering succeeds if and only if every line has two fields |
| Config.ConfigFilterSelects | fixgitcommits.py:58-62 | on success, the j-th value is the stripped remainder of the j-th line with the requested key |
| Config.ConfigFilterFirstFailure | fixgitcommits.py:58-59 | a failure names the first line with fewer than two fields, and all lines before it have two |
| Config.ConfigFilterSnoc | fixgitcommits.py:58-61 | one more line adds its own contribution after the others |
| Config.ConfigFilterStop | fixgitcommits.py:58-59 | a line that does not split ends filtering with its failure when the lines before it succeeded |
| Config.ConfigItems | fixgitcommits.py:56-62 | the loop returns exactly the filtered values, or the failure of the first line it cannot unpack |
| Config.LineItems | fixgitcommits.py:59-61 | one line's contribution: a line that does not unpack fails with that line, otherwise at most one value, non-empty and not starting with whitespace (which value and when: LineItemsKeyExact, LineItemsOk) |
| Config.ConfigFilter | fixgitcommits.py:56-62 | the filtered values of all lines: never more values than lines, and a failure names one of the lines (which values: ConfigFilterSelects; when it fails: ConfigFilterOk, ConfigFilterFirstFailure) |
| Config.KeyLinesSnoc | fixgitcommits.py:58-60 | one more line adds its own position to the key lines exactly when its key is the requested one |
| Config.KeyValueLine | fixgitcommits.py:59-61 | a single line `key value` gives the value when the key is the requested one, and nothing otherwise |
| Config.LongerKeyIgnored | fixgitcommits.py:60 | a line whose key only starts with the requested one (such as `user.emailx` for `user.email`) gives no value |
| Menu.Enumerate | fixgitcommits.py:70-72 | a round's dictionary (rounds 2 and 3 build theirs the same way at lines 82-84 and 97-99): every key k is in 1..n and holds the k-th element (that every such key is present: EnumerateLookup) |
| Menu.EnumerateLookup | fixgitcommits.py:70-72 | a round's dictionary has exactly the keys 1..n, key k holding the k-th element |
| Menu.Lookup | fixgitcommits.py:91 | a dictionary lookup gives the element at a 1-based index in range, and fails (KeyError) outside it |
| Menu.ChooseValue | fixgitcommits.py:82-91 | numbering the candidates and taking the choice gives exactly what Pick says, and leaves the counter as CounterAfter says |
| Menu.FillChoices | fixgitcommits.py:82-84 | the loop builds the round's dictionary and leaves the counter on the last index, or unchanged when the list is empty |
| Menu.Emails | fixgitcommits.py:81 | the email of each collected identity, in order |
| Menu.Names | fixgitcommits.py:96 | the name of each collected identity, in order |
| Menu.Without | fixgitcommits.py:81 | the kept values are exactly the values different from the wrong one |
| Menu.WithoutAppend | fixgitcommits.py:81 | filtering keeps order: it distributes over concatenation |
| Menu.Candidates | fixgitcommits.py:81 | the list offered in round 2 (and, on names, in round 3 at line 96): at least the configured values and at most one per collected identity more (its contents: CandidatesContents) |
| Menu.CounterAfter | fixgitcommits.py:82-85 | the counter after numbering a round: the number of candidates when there are any, the previous counter when there are none |
| Menu.Pick | fixgitcommits.py:85-91 | the choice in round 2 (and round 3, lines 100-106): a success is the typed value or one of the candidates, and a failure names the round and the choice (which choice gives what: PickNonEmpty, PickEmpty) |
| Menu.CandidatesContents | fixgitcommits.py:81 | the candidates end with the configured values, preceded by exactly the collected values other than the wrong one |
| Menu.PickWrong | fixgitcommits.py:74-76 | round 1 succeeds exactly for an index in 1..n and gives that identity; any other index raises |
| Menu.PickNonEmpty | fixgitcommits.py:85-91 | with candidates, n+1 is the manual option, 1..n the candidates, anything else raises |
| Menu.PickEmpty | fixgitcommits.py:85-91 | with no candidate, the manual option is one past the leftover counter and anything else raises |
| Menu.MenuOutcome | fixgitcommits.py:65-115 | the whole menu from the command outputs and the answers: a directive always replaces an email found in history, the rewrite starts exactly on "Y", and an unpacking failure names one of the configuration lines |
| Menu.Rounds | fixgitcommits.py:69-115 | the menu from the collected identities: a directive replaces the email of the identity at the typed index, the rewrite starts exactly on "Y", and a failure is a bad choice or a configuration failure (the picks: RoundsPicks) |
| Menu.EmailRound | fixgitcommits.py:79-92 | from round 2 on: a success read both configuration keys, the wrong email is kept, the new email is the typed one or a candidate, and a configuration failure in either key propagates |
| Menu.NameRound | fixgitcommits.py:94-115 | from round 3 on: the wrong and new emails are kept, the new name is the typed one or a candidate, the rewrite starts exactly on "Y", and a failure is a bad third choice or the `user.name` failure |
| Menu.RoundsSucceed | fixgitcommits.py:74-113 | a round-1 index in range, both configuration keys read, and offered choices in rounds 2 and 3 reach the confirmation with the directive made of those picks |
| Menu.RoundsFirstFailure | fixgitcommits.py:74-106 | a failing run raises the first failure in program order: the round-1 lookup, reading `user.email`, the round-2 lookup, reading `user.name`, the round-3 lookup |
| Menu.MenuOutcomeSucceed | fixgitcommits.py:65-113 | on the command outputs: an index into the parsed history, configuration lines that all unpack and offered choices reach the confirmation with the picked directive |
| Menu.MenuOutcomeFirstFailure | fixgitcommits.py:65-106 | on the command outputs, failures in program order, a configuration failure naming the first line that does not unpack |
| Menu.Confirm | fixgitcommits.py:109-115 | the confirmation keeps the directive and only decides whether it is applied |
| Menu.RoundsWrongIdentity | fixgitcommits.py:74-79 | an index outside the list raises in round 1; a run that does not raise replaces the email of the chosen identity |
| Menu.RoundsPicks | fixgitcommits.py:79-107 | a run that does not raise read both configuration keys, and the new email and name are the operator's picks in rounds 2 and 3 |
| Menu.ConfirmationOnlyGates | fixgitcommits.py:109-115 | the answer to the confirmation changes only whether the rewrite starts, never the directive or whether the run raises |
| Menu.ConfirmExactY | fixgitcommits.py:112 | the rewrite starts if and only if the answer is exactly "Y"; "y", "yes", "" and "N" stop |
| Menu.EmptyRoundKeepsCounter | fixgitcommits.py:69-106 | with one identity and configuration lines that carry no `user.email` and no `user.name` key (only `user.emailx` and `user.namex`), round 2 has no candidate, its manual option is 2 and choosing 1 raises; round 3 keeps the same counter |
| Menu.EmailxIgnored | fixgitcommits.py:58-61 | the line `user.emailx x@y.com` gives no `user.email` value |
| Menu.NamexIgnored | fixgitcommits.py:58-61 | the line `user.namex X` gives no `user.name` value |
| Menu.OneAuthorRounds | fixgitcommits.py:69-106 | the rounds of that example, once the inputs are read |
| Menu.TwoAuthorsScenario | fixgitcommits.py:65-113 | two authors with `user.email` and `user.name` configured: B's email replaced by A's email and a typed name, whose option is 3 after the candidates A and Carol, end in the expected rewrite |
| Menu.ConfiguredEmail | fixgitcommits.py:58-61 | the line `user.email c@x.com` gives the value c@x.com |
| Menu.ConfiguredName | fixgitcommits.py:58-61 | the line `user.name Carol` gives the value Carol |
| Menu.TwoSummaryLines | fixgitcommits.py:39-43 | the two summary lines of that scenario give both identities in order |
| Menu.SecondLine | fixgitcommits.py:40-43 | the second summary line of that scenario gives B's identity |
| Menu.TwoAuthorsRounds | fixgitcommits.py:69-113 | the rounds of that scenario, with the configured email and name appended to the candidates, give the expected directive |
| Menu.RunMenu | fixgitcommits.py:65-115 | the imperative menu, with dictionaries and the shared counter, ends exactly as the staged specification says |
| History.FilterIdentity | fixgitcommits.py:19-28 | one side of a commit after the filter (lines 19-23 for the committer, 24-28 for the author): the original identity or the new one, and the wrong email survives only when it is also the new email (both sides: FilterCommitSides) |
| History.FilterCommit | fixgitcommits.py:15-28 | the filter never changes anything but the identities |
| History.FilterCommitSides | fixgitcommits.py:19-28 | each side gets the new identity exactly when its own email is the wrong one; a commit matching on neither side is unchanged |
| History.FilterSidesIndependent | fixgitcommits.py:19-28 | the author's result does not depend on the committer, nor the reverse |
| History.FilterCommitIdempotent | fixgitcommits.py:15-28 | filtering a commit twice is filtering it once |
| History.RewriteHistory | fixgitcommits.py:47-53 | the rewritten history has the same commits in the same order, with the same content |
| History.RewriteHistoryAt | fixgitcommits.py:47-53 | the i-th rewritten commit is the i-th commit after the filter |
| History.RewriteHistoryIdempotent | fixgitcommits.py:47-53 | rewriting a rewritten history changes nothing |
| History.RewriteHistoryClean | fixgitcommits.py:19-28 | unless the new email is the wrong one, no author or committer keeps the wrong email, and commits that never had it are unchanged |
| History.RewriteScenario | fixgitcommits.py:19-28 | in an A, B, A history only B's commit is rewritten, on both sides |
| Cli.Dispatch | fixgitcommits.py:118-127 | no argument runs on the current directory, one argument is the path, more than one is a usage error with status 1 |
| Cli.DispatchIgnores | fixgitcommits.py:118-126 | a given path does not depend on the current directory, and any extra arguments are refused alike |

## Left out

- Running git (`git`, lines 31-33): the outputs of `shortlog` and `config --get-regexp` are parameters, already split into lines; `splitlines` and decoding are not modelled.
- `git config --get-regexp` treats the key as a regular expression; which lines git returns is up to git, so the model takes any lines.
- When no configuration key matches, `git config --get-regexp` exits with status 1 and the script's `check_output` raises `CalledProcessError` (lines 32, 81 and 96); the model has no such failure, and an empty list of configuration lines gives `Ok([])`, which does not correspond to any run of the script. The examples use configuration lines that are present but carry another key.
- `\d` is modelled as the ASCII digits only; Python also accepts other Unicode decimal digits.
- `int()` on the typed choices: the answers are integers already; a `ValueError` from non-numeric input is not modelled.
- Printing and the prompts of `input`: only the answers are modelled.
- `os.getcwd()` is a parameter of `Cli.Dispatch`; the usage line and `sys.exit` become the `Usage` action.
- The `KeyboardInterrupt` handler (lines 130-134).
- `fix_email`: the shell text of the filter is not modelled, including what happens when a name or email contains a double quote or `$`; the model applies the filter's rule to each commit directly. `filter-branch` options (`--tag-name-filter cat`, all branches and tags) and the new commit ids git computes are not modelled.
- History.RewriteHistory: a commit is modelled by its two identities and one opaque remainder, so it does not capture that git recomputes parent links and commit ids.
