/** `menu`: three numbered rounds (the wrong identity, the new email, the
    new name) and the confirmation that starts the rewrite.

    Each round fills a dictionary from 1-based indexes to choices in a loop,
    and a choice not in the dictionary raises. The loop counter `numb` is
    shared by the three loops and never reset: after a loop over an empty
    list it still holds the previous loop's last index, and the "Manually
    enter" option of rounds 2 and 3 is always one past it. */
module Menu {
  import opened Basics
  import opened History
  import Shortlog
  import Config

  /** The operator's answers, in the order the prompts ask for them. The
      choices are integers already parsed from the input. */
  datatype Answers = Answers(wrongChoice: int, emailChoice: int, manualEmail: string,
                             nameChoice: int, manualName: string, accepted: string)

  /** How a run that does not raise ends: the rewrite is started, or the
      operator declines and the script says "Operation stopped". */
  datatype Outcome = Rewrite(directive: Directive) | Stopped(directive: Directive)

  /** A round's dictionary: index k holds the k-th element. */
  function Enumerate<T>(s: seq<T>): (m: map<int, T>)
    ensures forall k :: k in m ==> 1 <= k <= |s| && m[k] == s[k - 1]
  {
    if s == [] then map[] else Enumerate(s[..|s| - 1])[|s| := s[|s| - 1]]
  }

  /** Looking an index up in a round's dictionary succeeds exactly for
      1..|s|, and gives the element at that position. */
  lemma {:induction false} EnumerateLookup<T>(s: seq<T>, k: int)
    ensures k in Enumerate(s) <==> 1 <= k <= |s|
    ensures 1 <= k <= |s| ==> Enumerate(s)[k] == s[k - 1]
  {
    if s != [] && k != |s| {
      EnumerateLookup(s[..|s| - 1], k);
    }
  }

  /** The loop that fills a round's dictionary, counting with `numb`. The
      counter ends on the last index, or keeps its value when `s` is empty. */
  method FillChoices<T>(s: seq<T>, numb: int) returns (choiceDict: map<int, T>, numb': int)
    ensures choiceDict == Enumerate(s)
    ensures numb' == if |s| > 0 then |s| else numb
  {
    choiceDict, numb' := map[], numb;
    for i := 0 to |s|
      invariant choiceDict == Enumerate(s[..i])
      invariant numb' == if i == 0 then numb else i
    {
      numb' := i + 1;
      assert s[..i + 1][..i] == s[..i];
      choiceDict := choiceDict[numb' := s[i]];
    }
    assert s[..|s|] == s;
  }

  function Emails(ids: seq<Identity>): (r: seq<string>)
    ensures |r| == |ids| && forall i :: 0 <= i < |ids| ==> r[i] == ids[i].email
  {
    seq(|ids|, i requires 0 <= i < |ids| => ids[i].email)
  }

  function Names(ids: seq<Identity>): (r: seq<string>)
    ensures |r| == |ids| && forall i :: 0 <= i < |ids| ==> r[i] == ids[i].name
  {
    seq(|ids|, i requires 0 <= i < |ids| => ids[i].name)
  }

  /** The values different from `wrong`, in their order. */
  function Without(values: seq<string>, wrong: string): (r: seq<string>)
    ensures |r| <= |values|
    ensures forall v :: v in r <==> v in values && v != wrong
  {
    if values == [] then []
    else (if values[0] == wrong then [] else [values[0]]) + Without(values[1..], wrong)
  }

  /** Without keeps order: it distributes over concatenation. */
  lemma {:induction false} WithoutAppend(xs: seq<string>, ys: seq<string>, wrong: string)
    ensures Without(xs + ys, wrong) == Without(xs, wrong) + Without(ys, wrong)
  {
    if xs == [] {
      assert xs + ys == ys;
    } else {
      assert (xs + ys)[0] == xs[0] && (xs + ys)[1..] == xs[1..] + ys;
      WithoutAppend(xs[1..], ys, wrong);
    }
  }

  /** The candidate list of rounds 2 and 3: the collected values other than
      the wrong one, in collected order, then the configured values. */
  function Candidates(collected: seq<string>, wrong: string, configured: seq<string>): (r: seq<string>)
    ensures |configured| <= |r| <= |collected| + |configured|
  {
    Without(collected, wrong) + configured
  }

  /** The candidates end with the configured values; before them come
      exactly the collected values other than the wrong one. */
  lemma CandidatesContents(collected: seq<string>, wrong: string, configured: seq<string>)
    ensures var r := Candidates(collected, wrong, configured);
            && |configured| <= |r| <= |collected| + |configured|
            && r[|r| - |configured|..] == configured
            && forall v :: v in r[..|r| - |configured|] <==> v in collected && v != wrong
  {
    var kept := Without(collected, wrong);
    assert (kept + configured)[..|kept|] == kept;
  }

  /** The counter after a round's loop: the last index, or the value it had
      before when the list is empty. */
  function CounterAfter<T>(candidates: seq<T>, counter: int): (c: int)
    ensures candidates != [] ==> c == |candidates|
    ensures candidates == [] ==> c == counter
  {
    if |candidates| > 0 then |candidates| else counter
  }

  /** Round 1: the identity at the 1-based index the operator typed. */
  function PickWrong(collected: seq<Identity>, choice: int): (r: Result<Identity>)
    ensures r.Ok? <==> 1 <= choice <= |collected|
    ensures r.Ok? ==> r.value == collected[choice - 1]
    ensures r.Err? ==> r.failure == NoSuchChoice(1, choice)
  {
    if 1 <= choice <= |collected| then Ok(collected[choice - 1]) else Err(NoSuchChoice(1, choice))
  }

  /** Rounds 2 and 3: the manual option is one past the counter the loop
      leaves; any other choice is looked up among the candidates. */
  function Pick(candidates: seq<string>, counter: int, choice: int, manual: string, round: nat): (r: Result<string>)
    ensures r.Ok? ==> r.value == manual || r.value in candidates
    ensures r.Err? ==> r.failure == NoSuchChoice(round, choice)
  {
    if choice == CounterAfter(candidates, counter) + 1 then Ok(manual)
    else if 1 <= choice <= |candidates| then Ok(candidates[choice - 1])
    else Err(NoSuchChoice(round, choice))
  }

  /** With at least one candidate the manual option is |candidates| + 1,
      whatever the counter was, and every other choice outside 1..|candidates|
      fails. */
  lemma PickNonEmpty(candidates: seq<string>, counter: int, choice: int, manual: string, round: nat)
    requires candidates != []
    ensures choice == |candidates| + 1 ==> Pick(candidates, counter, choice, manual, round) == Ok(manual)
    ensures 1 <= choice <= |candidates| ==> Pick(candidates, counter, choice, manual, round) == Ok(candidates[choice - 1])
    ensures !(1 <= choice <= |candidates| + 1) ==> Pick(candidates, counter, choice, manual, round).Err?
  {
  }

  /** With no candidate the manual option is one past the leftover counter,
      not 1, and every other choice fails. */
  lemma PickEmpty(counter: int, choice: int, manual: string, round: nat)
    ensures choice == counter + 1 ==> Pick([], counter, choice, manual, round) == Ok(manual)
    ensures choice != counter + 1 ==> Pick([], counter, choice, manual, round) == Err(NoSuchChoice(round, choice))
  {
  }

  /** What `menu` does with the command outputs and the answers: a
      failure, or the directive and whether the rewrite starts. */
  function MenuOutcome(shortlog: seq<string>, emailConfig: seq<string>, nameConfig: seq<string>,
                       answers: Answers): (r: Result<Outcome>)
    ensures r.Ok? ==> r.value.directive.wrongEmail in Emails(Shortlog.ParseShortlog(shortlog))
    ensures r.Ok? ==> (r.value.Rewrite? <==> answers.accepted == "Y")
    ensures r.Err? && r.failure.TooFewFields? ==> r.failure.line in emailConfig || r.failure.line in nameConfig
  {
    Rounds(Shortlog.ParseShortlog(shortlog), Config.ConfigFilter(emailConfig, "user.email"),
           Config.ConfigFilter(nameConfig, "user.name"), answers)
  }

  /** The three rounds and the confirmation, given the collected identities
      and what reading each configuration key gives. A configuration key is
      read only once the rounds before it have succeeded, so a failure to
      read it counts only then. */
  function Rounds(collected: seq<Identity>, configEmails: Result<seq<string>>,
                  configNames: Result<seq<string>>, answers: Answers): (r: Result<Outcome>)
    ensures r.Ok? ==> 1 <= answers.wrongChoice <= |collected|
                      && r.value.directive.wrongEmail == collected[answers.wrongChoice - 1].email
    ensures r.Ok? ==> (r.value.Rewrite? <==> answers.accepted == "Y")
    ensures r.Err? ==> r.failure.NoSuchChoice? || (configEmails.Err? && r.failure == configEmails.failure)
                       || (configNames.Err? && r.failure == configNames.failure)
  {
    match PickWrong(collected, answers.wrongChoice)
    case Err(f) => Err(f)
    case Ok(wrong) => EmailRound(collected, wrong, CounterAfter(collected, 1), configEmails, configNames, answers)
  }

  /** Round 2 onwards, once the wrong identity is known. */
  function EmailRound(collected: seq<Identity>, wrong: Identity, counter: int, configEmails: Result<seq<string>>,
                      configNames: Result<seq<string>>, answers: Answers): (r: Result<Outcome>)
    ensures r.Ok? ==> configEmails.Ok? && configNames.Ok? && r.value.directive.wrongEmail == wrong.email
    ensures r.Ok? ==> r.value.directive.newEmail == answers.manualEmail
                      || r.value.directive.newEmail in Candidates(Emails(collected), wrong.email, configEmails.value)
    ensures r.Ok? ==> (r.value.Rewrite? <==> answers.accepted == "Y")
    ensures r.Err? ==> r.failure.NoSuchChoice? || (configEmails.Err? && r.failure == configEmails.failure)
                       || (configNames.Err? && r.failure == configNames.failure)
  {
    if configEmails.Err? then Err(configEmails.failure)
    else
      var emails := Candidates(Emails(collected), wrong.email, configEmails.value);
      match Pick(emails, counter, answers.emailChoice, answers.manualEmail, 2)
      case Err(f) => Err(f)
      case Ok(newEmail) => NameRound(collected, wrong, newEmail, CounterAfter(emails, counter), configNames, answers)
  }

  /** Round 3 and the confirmation, once the new email is known. */
  function NameRound(collected: seq<Identity>, wrong: Identity, newEmail: string, counter: int,
                     configNames: Result<seq<string>>, answers: Answers): (r: Result<Outcome>)
    ensures r.Ok? ==> configNames.Ok? && r.value.directive == Directive(wrong.email, r.value.directive.newName, newEmail)
    ensures r.Ok? ==> r.value.directive.newName == answers.manualName
                      || r.value.directive.newName in Candidates(Names(collected), wrong.name, configNames.value)
    ensures r.Ok? ==> (r.value.Rewrite? <==> answers.accepted == "Y")
    ensures r.Err? ==> r.failure == NoSuchChoice(3, answers.nameChoice) || (configNames.Err? && r.failure == configNames.failure)
  {
    if configNames.Err? then Err(configNames.failure)
    else
      var names := Candidates(Names(collected), wrong.name, configNames.value);
      match Pick(names, counter, answers.nameChoice, answers.manualName, 3)
      case Err(f) => Err(f)
      case Ok(newName) => Ok(Confirm(Directive(wrong.email, newName, newEmail), answers.accepted))
  }

  /** The confirmation gate: only the exact answer "Y" starts the rewrite. */
  function Confirm(d: Directive, accepted: string): (o: Outcome)
    ensures o.directive == d
  {
    if accepted == "Y" then Rewrite(d) else Stopped(d)
  }

  /** Round 1: an index outside 1..|collected| raises at once; otherwise
      the wrong email is the email of the identity at that index. */
  lemma RoundsWrongIdentity(collected: seq<Identity>, configEmails: Result<seq<string>>,
                            configNames: Result<seq<string>>, answers: Answers)
    ensures var k := answers.wrongChoice;
            !(1 <= k <= |collected|) ==> Rounds(collected, configEmails, configNames, answers) == Err(NoSuchChoice(1, k))
    ensures var r, k := Rounds(collected, configEmails, configNames, answers), answers.wrongChoice;
            r.Ok? ==> 1 <= k <= |collected| && r.value.directive.wrongEmail == collected[k - 1].email
  {
    if 1 <= answers.wrongChoice <= |collected| {
      var wrong := collected[answers.wrongChoice - 1];
      var counter := CounterAfter(collected, 1);
      if configEmails.Ok? {
        var emails := Candidates(Emails(collected), wrong.email, configEmails.value);
        var picked := Pick(emails, counter, answers.emailChoice, answers.manualEmail, 2);
        if picked.Ok? {
          var _ := NameRound(collected, wrong, picked.value, CounterAfter(emails, counter), configNames, answers);
        }
      }
    }
  }

  /** Rounds 2 and 3: in a run that does not raise, both configuration keys
      were read, and the new email and the new name are what the operator
      picked from the round's candidates, the manual option included. */
  lemma RoundsPicks(collected: seq<Identity>, configEmails: Result<seq<string>>,
                    configNames: Result<seq<string>>, answers: Answers)
    requires Rounds(collected, configEmails, configNames, answers).Ok?
    ensures configEmails.Ok? && configNames.Ok? && 1 <= answers.wrongChoice <= |collected|
    ensures var d, wrong := Rounds(collected, configEmails, configNames, answers).value.directive,
                            collected[answers.wrongChoice - 1];
            var emails := Candidates(Emails(collected), wrong.email, configEmails.value);
            var names := Candidates(Names(collected), wrong.name, configNames.value);
            && Pick(emails, CounterAfter(collected, 1), answers.emailChoice, answers.manualEmail, 2) == Ok(d.newEmail)
            && Pick(names, CounterAfter(emails, CounterAfter(collected, 1)), answers.nameChoice, answers.manualName, 3) == Ok(d.newName)
  {
    RoundsWrongIdentity(collected, configEmails, configNames, answers);
  }

  /** A run whose round-1 index is in range, whose configuration keys both
      read, and whose round-2 and round-3 choices are both offered reaches
      the confirmation with the directive made of those picks. */
  lemma RoundsSucceed(collected: seq<Identity>, configEmails: seq<string>, configNames: seq<string>,
                      answers: Answers)
    requires 1 <= answers.wrongChoice <= |collected|
    requires var wrong := collected[answers.wrongChoice - 1];
             var emails := Candidates(Emails(collected), wrong.email, configEmails);
             var names := Candidates(Names(collected), wrong.name, configNames);
             && Pick(emails, CounterAfter(collected, 1), answers.emailChoice, answers.manualEmail, 2).Ok?
             && Pick(names, CounterAfter(emails, CounterAfter(collected, 1)), answers.nameChoice,
                     answers.manualName, 3).Ok?
    ensures var wrong := collected[answers.wrongChoice - 1];
            var emails := Candidates(Emails(collected), wrong.email, configEmails);
            var names := Candidates(Names(collected), wrong.name, configNames);
            var newEmail := Pick(emails, CounterAfter(collected, 1), answers.emailChoice, answers.manualEmail, 2).value;
            var newName := Pick(names, CounterAfter(emails, CounterAfter(collected, 1)), answers.nameChoice,
                                answers.manualName, 3).value;
            Rounds(collected, Ok(configEmails), Ok(configNames), answers)
            == Ok(Confirm(Directive(wrong.email, newName, newEmail), answers.accepted))
  {
  }

  /** A run that fails raises the first failure in program order: the
      round-1 lookup, then reading `user.email`, then the round-2 lookup,
      then reading `user.name`, then the round-3 lookup. */
  lemma RoundsFirstFailure(collected: seq<Identity>, configEmails: Result<seq<string>>,
                           configNames: Result<seq<string>>, answers: Answers)
    ensures var r, k := Rounds(collected, configEmails, configNames, answers), answers.wrongChoice;
            !(1 <= k <= |collected|) ==> r == Err(NoSuchChoice(1, k))
    ensures var r, k := Rounds(collected, configEmails, configNames, answers), answers.wrongChoice;
            1 <= k <= |collected| && configEmails.Err? ==> r == Err(configEmails.failure)
    ensures var r, k := Rounds(collected, configEmails, configNames, answers), answers.wrongChoice;
            1 <= k <= |collected| && configEmails.Ok? ==>
              var wrong := collected[k - 1];
              var emails := Candidates(Emails(collected), wrong.email, configEmails.value);
              var picked := Pick(emails, CounterAfter(collected, 1), answers.emailChoice, answers.manualEmail, 2);
              && (picked.Err? ==> r == Err(NoSuchChoice(2, answers.emailChoice)))
              && (picked.Ok? && configNames.Err? ==> r == Err(configNames.failure))
              && (picked.Ok? && configNames.Ok? ==>
                    var names := Candidates(Names(collected), wrong.name, configNames.value);
                    Pick(names, CounterAfter(emails, CounterAfter(collected, 1)), answers.nameChoice,
                         answers.manualName, 3).Err?
                    ==> r == Err(NoSuchChoice(3, answers.nameChoice)))
  {
  }

  /** `RoundsSucceed` on the command outputs: an index into the parsed
      history, configuration lines that all unpack, and offered choices in
      rounds 2 and 3 reach the confirmation with the picked directive. */
  lemma MenuOutcomeSucceed(shortlog: seq<string>, emailConfig: seq<string>, nameConfig: seq<string>,
                           answers: Answers)
    requires 1 <= answers.wrongChoice <= |Shortlog.ParseShortlog(shortlog)|
    requires Config.ConfigFilter(emailConfig, "user.email").Ok? && Config.ConfigFilter(nameConfig, "user.name").Ok?
    requires var collected := Shortlog.ParseShortlog(shortlog);
             var wrong := collected[answers.wrongChoice - 1];
             var emails := Candidates(Emails(collected), wrong.email, Config.ConfigFilter(emailConfig, "user.email").value);
             var names := Candidates(Names(collected), wrong.name, Config.ConfigFilter(nameConfig, "user.name").value);
             && Pick(emails, CounterAfter(collected, 1), answers.emailChoice, answers.manualEmail, 2).Ok?
             && Pick(names, CounterAfter(emails, CounterAfter(collected, 1)), answers.nameChoice,
                     answers.manualName, 3).Ok?
    ensures var collected := Shortlog.ParseShortlog(shortlog);
            var wrong := collected[answers.wrongChoice - 1];
            var emails := Candidates(Emails(collected), wrong.email, Config.ConfigFilter(emailConfig, "user.email").value);
            var names := Candidates(Names(collected), wrong.name, Config.ConfigFilter(nameConfig, "user.name").value);
            var newEmail := Pick(emails, CounterAfter(collected, 1), answers.emailChoice, answers.manualEmail, 2).value;
            var newName := Pick(names, CounterAfter(emails, CounterAfter(collected, 1)), answers.nameChoice,
                                answers.manualName, 3).value;
            MenuOutcome(shortlog, emailConfig, nameConfig, answers)
            == Ok(Confirm(Directive(wrong.email, newName, newEmail), answers.accepted))
  {
    RoundsSucceed(Shortlog.ParseShortlog(shortlog), Config.ConfigFilter(emailConfig, "user.email").value,
                  Config.ConfigFilter(nameConfig, "user.name").value, answers);
  }

  /** `RoundsFirstFailure` on the command outputs: a round-1 index outside
      the parsed history raises first; once round 1 has succeeded, a
      `user.email` line that does not unpack raises for the first such line,
      before round 2 is looked at; then the round-2 lookup; then the first
      `user.name` line that does not unpack; then the round-3 lookup. */
  lemma MenuOutcomeFirstFailure(shortlog: seq<string>, emailConfig: seq<string>, nameConfig: seq<string>,
                                answers: Answers)
    ensures var collected, k := Shortlog.ParseShortlog(shortlog), answers.wrongChoice;
            !(1 <= k <= |collected|) ==> MenuOutcome(shortlog, emailConfig, nameConfig, answers) == Err(NoSuchChoice(1, k))
    ensures var collected, k := Shortlog.ParseShortlog(shortlog), answers.wrongChoice;
            1 <= k <= |collected| && Config.ConfigFilter(emailConfig, "user.email").Err? ==>
              exists i :: Config.FirstBadLine(emailConfig, i)
                          && MenuOutcome(shortlog, emailConfig, nameConfig, answers) == Err(TooFewFields(emailConfig[i]))
    ensures var collected, k := Shortlog.ParseShortlog(shortlog), answers.wrongChoice;
            var configEmails := Config.ConfigFilter(emailConfig, "user.email");
            1 <= k <= |collected| && configEmails.Ok? && Config.ConfigFilter(nameConfig, "user.name").Err?
            && Pick(Candidates(Emails(collected), collected[k - 1].email, configEmails.value), CounterAfter(collected, 1),
                    answers.emailChoice, answers.manualEmail, 2).Ok? ==>
              exists i :: Config.FirstBadLine(nameConfig, i)
                          && MenuOutcome(shortlog, emailConfig, nameConfig, answers) == Err(TooFewFields(nameConfig[i]))
    ensures var collected, k := Shortlog.ParseShortlog(shortlog), answers.wrongChoice;
            var configEmails := Config.ConfigFilter(emailConfig, "user.email");
            1 <= k <= |collected| && configEmails.Ok?
            && Pick(Candidates(Emails(collected), collected[k - 1].email, configEmails.value), CounterAfter(collected, 1),
                    answers.emailChoice, answers.manualEmail, 2).Err? ==>
              MenuOutcome(shortlog, emailConfig, nameConfig, answers) == Err(NoSuchChoice(2, answers.emailChoice))
    ensures var collected, k := Shortlog.ParseShortlog(shortlog), answers.wrongChoice;
            var configEmails := Config.ConfigFilter(emailConfig, "user.email");
            var configNames := Config.ConfigFilter(nameConfig, "user.name");
            1 <= k <= |collected| && configEmails.Ok? && configNames.Ok? ==>
              var emails := Candidates(Emails(collected), collected[k - 1].email, configEmails.value);
              var names := Candidates(Names(collected), collected[k - 1].name, configNames.value);
              Pick(emails, CounterAfter(collected, 1), answers.emailChoice, answers.manualEmail, 2).Ok?
              && Pick(names, CounterAfter(emails, CounterAfter(collected, 1)), answers.nameChoice,
                      answers.manualName, 3).Err?
              ==> MenuOutcome(shortlog, emailConfig, nameConfig, answers) == Err(NoSuchChoice(3, answers.nameChoice))
  {
    var collected := Shortlog.ParseShortlog(shortlog);
    var configEmails := Config.ConfigFilter(emailConfig, "user.email");
    var configNames := Config.ConfigFilter(nameConfig, "user.name");
    RoundsFirstFailure(collected, configEmails, configNames, answers);
    if configEmails.Err? {
      Config.ConfigFilterFirstFailure(emailConfig, "user.email");
    }
    if configNames.Err? {
      Config.ConfigFilterFirstFailure(nameConfig, "user.name");
    }
  }

  /** The confirmation answer decides only between starting the rewrite and
      stopping: with any other answer the run fails or succeeds the same way
      and carries the same directive. */
  lemma ConfirmationOnlyGates(collected: seq<Identity>, configEmails: Result<seq<string>>,
                              configNames: Result<seq<string>>, answers: Answers, accepted: string)
    ensures var r := Rounds(collected, configEmails, configNames, answers);
            Rounds(collected, configEmails, configNames, answers.(accepted := accepted))
            == if r.Err? then r else Ok(Confirm(r.value.directive, accepted))
  {
    RoundsWrongIdentity(collected, configEmails, configNames, answers);
    RoundsWrongIdentity(collected, configEmails, configNames, answers.(accepted := accepted));
    if 1 <= answers.wrongChoice <= |collected| && configEmails.Ok? {
      var wrong := collected[answers.wrongChoice - 1];
      var counter := CounterAfter(collected, 1);
      var emails := Candidates(Emails(collected), wrong.email, configEmails.value);
      var picked := Pick(emails, counter, answers.emailChoice, answers.manualEmail, 2);
      if picked.Ok? {
        var _ := NameRound(collected, wrong, picked.value, CounterAfter(emails, counter), configNames, answers);
      }
    }
  }

  /** The rewrite starts on "Y" and on nothing else. */
  lemma ConfirmExactY(d: Directive, accepted: string)
    ensures Confirm(d, accepted).Rewrite? <==> accepted == "Y"
    ensures Confirm(d, "y").Stopped? && Confirm(d, "yes").Stopped? && Confirm(d, "").Stopped? && Confirm(d, "N").Stopped?
  {
  }

  /** One author, and configuration lines that carry no `user.email` and no
      `user.name` key (`--get-regexp` also reports `user.emailx` and
      `user.namex`): the email round has no candidate, yet its "Manually
      enter" option is 2, the counter left by round 1, and 1 fails; the name
      round then keeps that same counter. */
  lemma EmptyRoundKeepsCounter(line: string, emailConfig: seq<string>, nameConfig: seq<string>)
    requires line == "     2\tA <a@x.com>"
    requires emailConfig == ["user.emailx x@y.com"] && nameConfig == ["user.namex X"]
    ensures MenuOutcome([line], emailConfig, nameConfig, Answers(1, 1, "new@x.com", 2, "New", "Y"))
            == Err(NoSuchChoice(2, 1))
    ensures MenuOutcome([line], emailConfig, nameConfig, Answers(1, 2, "new@x.com", 2, "New", "Y"))
            == Ok(Rewrite(Directive("a@x.com", "New", "new@x.com")))
  {
    var a := Identity("A", "a@x.com");
    Shortlog.TypicalLine(line);
    Shortlog.ParseShortlogSingle(line);
    assert emailConfig == [emailConfig[0]] && nameConfig == [nameConfig[0]];
    EmailxIgnored(emailConfig[0], "user.email", "x", "x@y.com");
    NamexIgnored(nameConfig[0], "user.name", "x", "X");
    var none: seq<string> := [];
    OneAuthorRounds([a], none);
  }

  /** `user.emailx x@y.com` gives no `user.email` value. */
  lemma EmailxIgnored(line: string, conf: string, suffix: string, value: string)
    requires line == "user.emailx x@y.com" && conf == "user.email" && suffix == "x" && value == "x@y.com"
    ensures Config.ConfigFilter([line], conf) == Ok([])
  {
    assert line == conf + suffix + " " + value;
    assert Run(conf, 0, |conf|, IsNonSpace) && Run(suffix, 0, |suffix|, IsNonSpace);
    Config.LongerKeyIgnored(line, conf, suffix, value);
  }

  /** `user.namex X` gives no `user.name` value. */
  lemma NamexIgnored(line: string, conf: string, suffix: string, value: string)
    requires line == "user.namex X" && conf == "user.name" && suffix == "x" && value == "X"
    ensures Config.ConfigFilter([line], conf) == Ok([])
  {
    assert line == conf + suffix + " " + value;
    assert Run(conf, 0, |conf|, IsNonSpace) && Run(suffix, 0, |suffix|, IsNonSpace);
    Config.LongerKeyIgnored(line, conf, suffix, value);
  }

  /** The rounds of that example, once the inputs are read. */
  lemma OneAuthorRounds(collected: seq<Identity>, none: seq<string>)
    requires collected == [Identity("A", "a@x.com")] && none == []
    ensures Rounds(collected, Ok(none), Ok(none), Answers(1, 1, "new@x.com", 2, "New", "Y")) == Err(NoSuchChoice(2, 1))
    ensures Rounds(collected, Ok(none), Ok(none), Answers(1, 2, "new@x.com", 2, "New", "Y"))
            == Ok(Rewrite(Directive("a@x.com", "New", "new@x.com")))
  {
    assert Emails(collected) == ["a@x.com"] && Names(collected) == ["A"];
    assert Candidates(["a@x.com"], "a@x.com", none) == [];
    assert Candidates(["A"], "A", none) == [];
  }

  /** A two-author history where `user.email` is configured as c@x.com and
      `user.name` as Carol: the operator picks B's email as the wrong one,
      A's email from the candidates [a@x.com, c@x.com], and types "Alice" at
      the name round's "Manually enter", which is 3 after the candidates
      [A, Carol]; then confirms. */
  lemma TwoAuthorsScenario(l1: string, l2: string, emailConfig: seq<string>, nameConfig: seq<string>)
    requires l1 == "     2\tA <a@x.com>" && l2 == "     1\tB <b@x.com>"
    requires emailConfig == ["user.email c@x.com"] && nameConfig == ["user.name Carol"]
    ensures MenuOutcome([l1, l2], emailConfig, nameConfig, Answers(2, 1, "", 3, "Alice", "Y"))
            == Ok(Rewrite(Directive("b@x.com", "Alice", "a@x.com")))
  {
    var a, b := Identity("A", "a@x.com"), Identity("B", "b@x.com");
    TwoSummaryLines(l1, l2, a, b);
    assert emailConfig == [emailConfig[0]] && nameConfig == [nameConfig[0]];
    ConfiguredEmail(emailConfig[0], "user.email", "c@x.com");
    ConfiguredName(nameConfig[0], "user.name", "Carol");
    TwoAuthorsRounds([a, b], ["c@x.com"], ["Carol"]);
  }

  /** `user.email c@x.com` gives the value c@x.com. */
  lemma ConfiguredEmail(line: string, key: string, value: string)
    requires line == "user.email c@x.com" && key == "user.email" && value == "c@x.com"
    ensures Config.ConfigFilter([line], key) == Ok([value])
  {
    assert line == key + " " + value;
    assert Run(key, 0, |key|, IsNonSpace);
    Config.KeyValueLine(line, key, value, key);
  }

  /** `user.name Carol` gives the value Carol. */
  lemma ConfiguredName(line: string, key: string, value: string)
    requires line == "user.name Carol" && key == "user.name" && value == "Carol"
    ensures Config.ConfigFilter([line], key) == Ok([value])
  {
    assert line == key + " " + value;
    assert Run(key, 0, |key|, IsNonSpace);
    Config.KeyValueLine(line, key, value, key);
  }

  lemma TwoSummaryLines(l1: string, l2: string, a: Identity, b: Identity)
    requires l1 == "     2\tA <a@x.com>" && l2 == "     1\tB <b@x.com>"
    requires a == Identity("A", "a@x.com") && b == Identity("B", "b@x.com")
    ensures Shortlog.ParseShortlog([l1, l2]) == [a, b]
  {
    Shortlog.TypicalLine(l1);
    SecondLine(l2, b);
    Shortlog.ParseShortlogPair(l1, l2);
  }

  lemma SecondLine(l2: string, b: Identity)
    requires l2 == "     1\tB <b@x.com>" && b == Identity("B", "b@x.com")
    ensures Shortlog.ParseLine(l2) == Some(b)
  {
    assert l2 == "     " + "1" + "\t" + "B" + " <" + "b@x.com" + ">";
    Shortlog.ParseLineRoundTrip("     ", "1", "\t", b);
  }

  /** The rounds of that example, once the inputs are read. */
  lemma TwoAuthorsRounds(collected: seq<Identity>, emails: seq<string>, names: seq<string>)
    requires collected == [Identity("A", "a@x.com"), Identity("B", "b@x.com")]
    requires emails == ["c@x.com"] && names == ["Carol"]
    ensures Rounds(collected, Ok(emails), Ok(names), Answers(2, 1, "", 3, "Alice", "Y"))
            == Ok(Rewrite(Directive("b@x.com", "Alice", "a@x.com")))
  {
    assert Emails(collected) == ["a@x.com", "b@x.com"] && Names(collected) == ["A", "B"];
    assert Candidates(["a@x.com", "b@x.com"], "b@x.com", emails) == ["a@x.com", "c@x.com"];
    assert Candidates(["A", "B"], "B", names) == ["A", "Carol"];
  }

  /** A lookup in a round's dictionary: the element at that index, or
      None where `choice_dict[choice_num]` raises KeyError. */
  method Lookup<T>(choiceDict: map<int, T>, s: seq<T>, choiceNum: int) returns (r: Option<T>)
    requires choiceDict == Enumerate(s)
    ensures r == if 1 <= choiceNum <= |s| then Some(s[choiceNum - 1]) else None
  {
    EnumerateLookup(s, choiceNum);
    if choiceNum in choiceDict {
      r := Some(choiceDict[choiceNum]);
    } else {
      r := None;
    }
  }

  /** One of rounds 2 and 3: number the candidates, offer "Manually
      enter" one past the counter, and take the operator's choice. */
  method ChooseValue(candidates: seq<string>, numb: int, choiceNum: int, manual: string, round: nat)
    returns (r: Result<string>, numb': int)
    ensures r == Pick(candidates, numb, choiceNum, manual, round)
    ensures numb' == CounterAfter(candidates, numb)
  {
    var choiceDict;
    choiceDict, numb' := FillChoices(candidates, numb);
    if choiceNum == numb' + 1 {
      return Ok(manual), numb';
    }
    var found := Lookup(choiceDict, candidates, choiceNum);
    if found.None? {
      return Err(NoSuchChoice(round, choiceNum)), numb';
    }
    r := Ok(found.value);
  }

  /** The script's `menu`, with the git outputs and the operator's answers
      as parameters and the rewrite it would start as its result. */
  method RunMenu(shortlog: seq<string>, emailConfig: seq<string>, nameConfig: seq<string>,
                 answers: Answers) returns (r: Result<Outcome>)
    ensures r == MenuOutcome(shortlog, emailConfig, nameConfig, answers)
  {
    ghost var configEmailsSpec := Config.ConfigFilter(emailConfig, "user.email");
    ghost var configNamesSpec := Config.ConfigFilter(nameConfig, "user.name");
    var choiceList := Shortlog.GatherEmails(shortlog);
    var choiceDict, numb := FillChoices(choiceList, 1);
    var found := Lookup(choiceDict, choiceList, answers.wrongChoice);
    if found.None? {
      return Err(NoSuchChoice(1, answers.wrongChoice));
    }
    var wrong := found.value;
    assert MenuOutcome(shortlog, emailConfig, nameConfig, answers)
        == EmailRound(choiceList, wrong, numb, configEmailsSpec, configNamesSpec, answers);

    // round 2
    var configEmails := Config.ConfigItems(emailConfig, "user.email");
    if configEmails.Err? {
      return Err(configEmails.failure);
    }
    var emailsChoice := Candidates(Emails(choiceList), wrong.email, configEmails.value);
    var newEmail;
    newEmail, numb := ChooseValue(emailsChoice, numb, answers.emailChoice, answers.manualEmail, 2);
    if newEmail.Err? {
      return Err(newEmail.failure);
    }
    assert MenuOutcome(shortlog, emailConfig, nameConfig, answers)
        == NameRound(choiceList, wrong, newEmail.value, numb, configNamesSpec, answers);

    // round 3
    var configNames := Config.ConfigItems(nameConfig, "user.name");
    if configNames.Err? {
      return Err(configNames.failure);
    }
    var namesChoice := Candidates(Names(choiceList), wrong.name, configNames.value);
    var newName;
    newName, numb := ChooseValue(namesChoice, numb, answers.nameChoice, answers.manualName, 3);
    if newName.Err? {
      return Err(newName.failure);
    }

    var d := Directive(wrong.email, newName.value, newEmail.value);
    if answers.accepted == "Y" {
      r := Ok(Rewrite(d));
    } else {
      r := Ok(Stopped(d));
    }
  }
}
