/** The setup window's controller (SetupController): choosing criteria,
    choosing a batch of submissions, and handing over to grading. Loading
    one submission directory is a parameter; dialogs, cards and hooks are
    recorded as state. */
module Setup {
  import opened Common
  import opened CriteriaLoading

  /** A loaded submission; what it holds beyond its directory is not part of
      this model. */
  datatype Submission = Submission(directory: string)

  /** The three failures the listener catches. */
  datatype SubmissionError = ReadFailure | ReceiptFormat | AlreadyGraded

  /** What Submission.fromDirectory gives for one chosen path. */
  datatype SubmissionOutcome = Loaded(submission: Submission) | LoadFailed(error: SubmissionError)

  /** The loaded submissions, in the order their paths were chosen. */
  function Successes(ps: seq<string>, fromDirectory: string -> SubmissionOutcome): seq<Submission>
  {
    if ps == [] then []
    else
      var prior := Successes(ps[..|ps| - 1], fromDirectory);
      match fromDirectory(ps[|ps| - 1])
      case Loaded(s) => prior + [s]
      case LoadFailed(_) => prior
  }

  /** The failures keyed by path, a later failure of a path replacing an
      earlier one. */
  function Errors(ps: seq<string>, fromDirectory: string -> SubmissionOutcome): map<string, SubmissionError>
  {
    if ps == [] then map[]
    else
      var prior := Errors(ps[..|ps| - 1], fromDirectory);
      var p := ps[|ps| - 1];
      match fromDirectory(p)
      case Loaded(_) => prior
      case LoadFailed(e) => prior[p := e]
  }

  /** The number of chosen positions whose load failed. */
  function FailCount(ps: seq<string>, fromDirectory: string -> SubmissionOutcome): nat
  {
    if ps == [] then 0
    else FailCount(ps[..|ps| - 1], fromDirectory) + (if fromDirectory(ps[|ps| - 1]).LoadFailed? then 1 else 0)
  }

  /** The listener's loop: each path is loaded and its submission appended,
      or its failure recorded under the path. */
  method PartitionSubmissions(ps: seq<string>, fromDirectory: string -> SubmissionOutcome)
    returns (submissions: seq<Submission>, errors: map<string, SubmissionError>)
    ensures submissions == Successes(ps, fromDirectory)
    ensures errors == Errors(ps, fromDirectory)
  {
    submissions := [];
    errors := map[];
    for i := 0 to |ps|
      invariant submissions == Successes(ps[..i], fromDirectory)
      invariant errors == Errors(ps[..i], fromDirectory)
    {
      var p := ps[i];
      assert ps[..i + 1][..i] == ps[..i];
      var outcome := fromDirectory(p);
      match outcome
      case Loaded(s) =>
        submissions := submissions + [s];
      case LoadFailed(e) =>
        errors := errors[p := e];
    }
    assert ps[..|ps|] == ps;
  }

  /** A path is an error key exactly when it was chosen and failed to load,
      with the failure it gave; so no chosen path is both loaded and failed. */
  lemma {:induction false} ErrorsByPath(ps: seq<string>, fromDirectory: string -> SubmissionOutcome, p: string)
    ensures p in Errors(ps, fromDirectory) <==> p in ps && fromDirectory(p).LoadFailed?
    ensures p in Errors(ps, fromDirectory) ==> Errors(ps, fromDirectory)[p] == fromDirectory(p).error
  {
    if ps != [] {
      var init := ps[..|ps| - 1];
      ErrorsByPath(init, fromDirectory, p);
      assert ps == init + [ps[|ps| - 1]];
    }
  }

  /** The loaded submissions of two batches chosen one after the other are
      those of the first followed by those of the second. */
  lemma {:induction false} SuccessesAppend(ps: seq<string>, qs: seq<string>, fromDirectory: string -> SubmissionOutcome)
    ensures Successes(ps + qs, fromDirectory) == Successes(ps, fromDirectory) + Successes(qs, fromDirectory)
    decreases |qs|
  {
    if qs == [] {
      assert ps + qs == ps;
    } else {
      var qi := qs[..|qs| - 1];
      assert (ps + qs)[..|ps + qs| - 1] == ps + qi;
      SuccessesAppend(ps, qi, fromDirectory);
    }
  }

  /** Every chosen position is either loaded or failed. */
  lemma {:induction false} SuccessesAndFailuresCover(ps: seq<string>, fromDirectory: string -> SubmissionOutcome)
    ensures |Successes(ps, fromDirectory)| + FailCount(ps, fromDirectory) == |ps|
  {
    if ps != [] {
      SuccessesAndFailuresCover(ps[..|ps| - 1], fromDirectory);
    }
  }

  /** The error count is the number of distinct failing paths: it equals the
      number of failures when no path was chosen twice. */
  lemma {:induction false} ErrorCountOfDistinctPaths(ps: seq<string>, fromDirectory: string -> SubmissionOutcome)
    requires forall i, j :: 0 <= i < j < |ps| ==> ps[i] != ps[j]
    ensures |Errors(ps, fromDirectory)| == FailCount(ps, fromDirectory)
  {
    if ps != [] {
      var init := ps[..|ps| - 1];
      var p := ps[|ps| - 1];
      ErrorCountOfDistinctPaths(init, fromDirectory);
      ErrorsByPath(init, fromDirectory, p);
      assert p !in init;
      var prior := Errors(init, fromDirectory);
      if fromDirectory(p).LoadFailed? {
        assert prior[p := fromDirectory(p).error].Keys == prior.Keys + {p};
      }
    }
  }

  const ProblemLead := "There was a problem opening "
  const RemainingLead := " The remaining "

  function ProblemTail(numErrors: nat): string
  {
    " submission" + (if numErrors == 1 then "" else "s") + "."
  }

  const Available := " available to grade."

  function RemainingTail(numAdded: nat): string
  {
    " submission" + (if numAdded == 1 then " is" else "s are") + Available
  }

  function ProblemSentence(numErrors: nat): string
  {
    ProblemLead + NatToString(numErrors) + ProblemTail(numErrors)
  }

  function RemainingSentence(numAdded: nat): string
  {
    if numAdded > 0 then RemainingLead + NatToString(numAdded) + RemainingTail(numAdded) else ""
  }

  /** The message shown when some submissions could not be opened: the
      number of failures, with "submission" in the singular for one, then,
      when some were loaded, how many remain. */
  function ErrorMessage(numErrors: nat, numAdded: nat): (msg: string)
    ensures HasPrefix(msg, ProblemLead + NatToString(numErrors) + " submission")
    ensures HasSuffix(msg, Available) <==> numAdded > 0
  {
    var p := ProblemSentence(numErrors);
    var r := RemainingSentence(numAdded);
    var lead := ProblemLead + NatToString(numErrors) + " submission";
    assert HasPrefix(p + r, lead) by {
      var ending := (if numErrors == 1 then "" else "s") + ".";
      assert p == lead + ending;
      Regroup3(lead, ending, r);
      PrefixOfConcat(lead, ending + r);
    }
    assert HasSuffix(p + r, Available) <==> numAdded > 0 by {
      if numAdded > 0 {
        var tail := RemainingTail(numAdded);
        assert HasSuffix(tail, Available) by {
          assert tail == " submission" + (if numAdded == 1 then " is" else "s are") + Available;
          SuffixOfConcat(" submission" + (if numAdded == 1 then " is" else "s are"), Available, Available);
        }
        SuffixOfConcat(RemainingLead + NatToString(numAdded), tail, Available);
        SuffixOfConcat(p, r, Available);
      } else {
        assert p + r == p;
        assert p[|p| - 2] != Available[|Available| - 2];
      }
    }
    p + r
  }

  /** "submission" takes the plural unless there is exactly one failure. */
  lemma ProblemGrammar(numErrors: nat)
    ensures HasSuffix(ProblemSentence(numErrors), " submissions.") <==> numErrors != 1
    ensures HasSuffix(ProblemSentence(numErrors), " submission.") <==> numErrors == 1
  {
    var s := ProblemSentence(numErrors);
    var k := |ProblemLead + NatToString(numErrors)|;
    assert s == ProblemLead + NatToString(numErrors) + ProblemTail(numErrors);
    assert s[k..] == ProblemTail(numErrors);
    if numErrors == 1 {
      assert s[|s| - |" submission."|..] == " submission.";
      assert s[|s| - 2] == 'n';
    } else {
      assert s[|s| - |" submissions."|..] == " submissions.";
      assert s[|s| - 2] == 's';
    }
  }

  /** The remaining sentence reads "submission is" for one loaded
      submission and "submissions are" for more. */
  lemma RemainingGrammar(numAdded: nat)
    ensures HasSuffix(RemainingSentence(numAdded), " submissions are" + Available) <==> numAdded > 1
    ensures HasSuffix(RemainingSentence(numAdded), " submission is" + Available) <==> numAdded == 1
  {
    if numAdded > 0 {
      var head := RemainingLead + NatToString(numAdded);
      var tail := RemainingTail(numAdded);
      var s := head + tail;
      var plural := " submissions are" + Available;
      var single := " submission is" + Available;
      if numAdded == 1 {
        assert tail == single;
        SuffixOfConcat(head, tail, single);
        assert s[|s| - |Available| - 2] == 'i';
        NotSuffixAt(s, plural, |Available| + 2);
      } else {
        assert tail == plural;
        SuffixOfConcat(head, tail, plural);
        assert s[|s| - |Available| - 2] == 'r';
        NotSuffixAt(s, single, |Available| + 2);
      }
    }
  }

  /** The same grammar, read off the whole message: the first sentence
      starts the message and the second, if any, ends it. */
  lemma ErrorMessageGrammar(e: nat, a: nat)
    ensures HasPrefix(ErrorMessage(e, a), ProblemLead + NatToString(e) + " submissions.") <==> e != 1
    ensures HasPrefix(ErrorMessage(e, a), ProblemLead + NatToString(e) + " submission.") <==> e == 1
    ensures HasSuffix(ErrorMessage(e, a), " submissions are" + Available) <==> a > 1
    ensures HasSuffix(ErrorMessage(e, a), " submission is" + Available) <==> a == 1
  {
    MessageOpening(ProblemSentence(e), RemainingSentence(a), e);
    MessageClosing(ProblemSentence(e), RemainingSentence(a), a);
  }

  lemma MessageOpening(p: string, r: string, e: nat)
    requires p == ProblemSentence(e)
    ensures HasPrefix(p + r, ProblemLead + NatToString(e) + " submissions.") <==> e != 1
    ensures HasPrefix(p + r, ProblemLead + NatToString(e) + " submission.") <==> e == 1
  {
    var msg := p + r;
    var lead := ProblemLead + NatToString(e);
    var plural, single := lead + " submissions.", lead + " submission.";
    var k := |lead| + |" submission"|;
    PrefixOfConcat(p, r);
    assert p == lead + ProblemTail(e);
    if e == 1 {
      assert p == single;
      assert msg[k] == '.' && plural[k] == 's';
      NotPrefixAt(msg, plural, k);
    } else {
      assert p == plural;
      assert msg[k] == 's' && single[k] == '.';
      NotPrefixAt(msg, single, k);
    }
  }

  lemma MessageClosing(p: string, r: string, a: nat)
    requires r == RemainingSentence(a)
    requires |p| >= 2 && p[|p| - 1] == '.' && p[|p| - 2] != 'e'
    ensures HasSuffix(p + r, " submissions are" + Available) <==> a > 1
    ensures HasSuffix(p + r, " submission is" + Available) <==> a == 1
  {
    var msg := p + r;
    var plural, single := " submissions are" + Available, " submission is" + Available;
    RemainingGrammar(a);
    if a > 0 {
      if HasSuffix(r, plural) {
        SuffixOfConcat(p, r, plural);
        NotSuffixAt(msg, single, |Available| + 2);
      } else {
        SuffixOfConcat(p, r, single);
        NotSuffixAt(msg, plural, |Available| + 2);
      }
    } else {
      assert msg == p;
      NotSuffixAt(msg, plural, 2);
      NotSuffixAt(msg, single, 2);
    }
  }

  /** The dialog title: "Error" for one failure, "Errors" otherwise. */
  function ErrorTitle(numErrors: nat): (title: string)
    ensures HasSuffix(title, " Opening Submissions")
    ensures HasPrefix(title, "Errors ") <==> numErrors != 1
  {
    var title := (if numErrors == 1 then "Error" else "Errors") + " Opening Submissions";
    assert title[|title| - |" Opening Submissions"|..] == " Opening Submissions";
    assert numErrors == 1 ==> title[5] == ' ';
    title
  }

  lemma {:induction false} RemainingDeterminesCount(a1: nat, a2: nat)
    requires RemainingSentence(a1) == RemainingSentence(a2)
    ensures a1 == a2
  {
    assert |RemainingSentence(a1)| > 0 <==> a1 > 0;
    assert |RemainingSentence(a2)| > 0 <==> a2 > 0;
    if a1 > 0 {
      var d1, d2 := NatToString(a1), NatToString(a2);
      var t1, t2 := RemainingTail(a1), RemainingTail(a2);
      Regroup3(RemainingLead, d1, t1);
      Regroup3(RemainingLead, d2, t2);
      StripPrefix(RemainingLead, d1 + t1, d2 + t2);
      DigitRunUnique(d1, t1, d2, t2);
      NatToStringInjective(a1, a2);
    }
  }

  lemma ErrorMessageShape(e: nat, a: nat)
    ensures ErrorMessage(e, a)
            == ProblemLead + (NatToString(e) + (ProblemTail(e) + RemainingSentence(a)))
  {
    Regroup4(ProblemLead, NatToString(e), ProblemTail(e), RemainingSentence(a));
  }

  /** The message determines both counts it was built from. */
  lemma {:induction false} ErrorMessageDeterminesCounts(e1: nat, a1: nat, e2: nat, a2: nat)
    requires ErrorMessage(e1, a1) == ErrorMessage(e2, a2)
    ensures e1 == e2 && a1 == a2
  {
    var d1, d2 := NatToString(e1), NatToString(e2);
    var t1, t2 := ProblemTail(e1), ProblemTail(e2);
    var r1, r2 := RemainingSentence(a1), RemainingSentence(a2);
    ErrorMessageShape(e1, a1);
    ErrorMessageShape(e2, a2);
    StripPrefix(ProblemLead, d1 + (t1 + r1), d2 + (t2 + r2));
    DigitRunUnique(d1, t1 + r1, d2, t2 + r2);
    NatToStringInjective(e1, e2);
    StripPrefix(t1, r1, r2);
    RemainingDeterminesCount(a1, a2);
  }

  /** Where the setup window is: hidden, asking for criteria, asking for
      submissions, or handed over to grading with what it had. */
  datatype Screen =
    | Hidden
    | CriteriaCard
    | SubmissionsCard
    | Grading(criteria: Option<Criteria>, submissions: seq<Submission>)

  datatype Dialog = Dialog(message: string, title: string)

  datatype Hook = AfterCriteriaLoad | BeforeGrading

  const CriteriaErrorDialog := Dialog("There was an error opening the criteria file you selected.",
                                      "Error Opening Criteria")

  class SetupController {
    var criteria: Option<Criteria>
    var submissions: Option<seq<Submission>>
    var screen: Screen
    var dialogs: seq<Dialog>
    var hooks: seq<Hook>

    /** The controller as created: no criteria, no submissions, the window
        not yet shown, and nothing recorded. */
    constructor ()
      ensures criteria.None? && submissions.None? && screen == Hidden
      ensures dialogs == [] && hooks == []
    {
      criteria := None;
      submissions := None;
      screen := Hidden;
      dialogs := [];
      hooks := [];
    }

    /** start: skip the steps whose result is already known. */
    method Start(criteria: Option<Criteria>, submissions: Option<seq<Submission>>)
      modifies this`criteria, this`submissions, this`screen, this`hooks
      ensures this.criteria == criteria && this.submissions == submissions
      ensures criteria.None? ==> screen == CriteriaCard && hooks == old(hooks)
      ensures criteria.Some? && submissions.None? ==>
                screen == SubmissionsCard && hooks == old(hooks) + [AfterCriteriaLoad]
      ensures criteria.Some? && submissions.Some? ==>
                screen == Grading(criteria, submissions.value)
                && hooks == old(hooks) + [AfterCriteriaLoad, BeforeGrading]
    {
      this.criteria := criteria;
      this.submissions := submissions;
      if criteria.None? {
        screen := CriteriaCard;
      } else if submissions.None? {
        hooks := hooks + [AfterCriteriaLoad];
        screen := SubmissionsCard;
      } else {
        hooks := hooks + [AfterCriteriaLoad, BeforeGrading];
        screen := Grading(criteria, submissions.value);
      }
    }

    /** transferToMain: hand the criteria and submissions to grading. */
    method TransferToMain()
      requires submissions.Some?
      modifies this`screen
      ensures screen == Grading(criteria, submissions.value)
    {
      screen := Grading(criteria, submissions.value);
    }

    /** The criteria button's listener; `choice` is None when nothing was
        chosen, else the outcome of loading the chosen path. A failed load
        keeps the previous criteria and stays on the current card. */
    method OnCriteriaChosen(choice: Option<Result<Criteria, LoadError>>)
      modifies this`criteria, this`screen, this`dialogs, this`hooks
      ensures submissions == old(submissions)
      ensures choice.None? ==>
                criteria == old(criteria) && screen == old(screen)
                && dialogs == old(dialogs) && hooks == old(hooks)
      ensures choice.Some? && choice.value.Failure? ==>
                criteria == old(criteria) && screen == old(screen)
                && dialogs == old(dialogs) + [CriteriaErrorDialog] && hooks == old(hooks)
      ensures choice.Some? && choice.value.Success? ==>
                && criteria == Some(choice.value.value)
                && dialogs == old(dialogs) && hooks == old(hooks) + [AfterCriteriaLoad]
                && (submissions.None? ==> screen == SubmissionsCard)
                && (submissions.Some? ==> screen == Grading(criteria, submissions.value))
    {
      if choice.Some? {
        match choice.value
        case Failure(_) =>
          dialogs := dialogs + [CriteriaErrorDialog];
        case Success(c) =>
          criteria := Some(c);
          hooks := hooks + [AfterCriteriaLoad];
          if submissions.None? {
            screen := SubmissionsCard;
          } else {
            TransferToMain();
          }
      }
    }

    /** The submissions button's listener; `choice` is None when nothing was
        chosen. The submissions are replaced by the batch's loaded ones
        (even when none loaded); failures are reported in one dialog; and
        grading starts only when at least one submission loaded. */
    method OnSubmissionsChosen(choice: Option<seq<string>>, fromDirectory: string -> SubmissionOutcome)
      modifies this`submissions, this`screen, this`dialogs, this`hooks
      ensures criteria == old(criteria)
      ensures choice.None? ==>
                submissions == old(submissions) && screen == old(screen)
                && dialogs == old(dialogs) && hooks == old(hooks)
      ensures choice.Some? ==>
                var loaded := Successes(choice.value, fromDirectory);
                var numErrors := |Errors(choice.value, fromDirectory)|;
                && submissions == Some(loaded)
                && dialogs == old(dialogs)
                     + (if numErrors > 0 then [Dialog(ErrorMessage(numErrors, |loaded|), ErrorTitle(numErrors))]
                        else [])
                && (|loaded| > 0 ==> screen == Grading(criteria, loaded) && hooks == old(hooks) + [BeforeGrading])
                && (|loaded| == 0 ==> screen == old(screen) && hooks == old(hooks))
    {
      if choice.None? {
        return;
      }
      var loaded, errors := PartitionSubmissions(choice.value, fromDirectory);
      submissions := Some(loaded);
      var numErrors := |errors|;
      var numAdded := |loaded|;
      if numErrors > 0 {
        var msg := ErrorMessage(numErrors, numAdded);
        var title := ErrorTitle(numErrors);
        dialogs := dialogs + [Dialog(msg, title)];
      }
      if numAdded > 0 {
        hooks := hooks + [BeforeGrading];
        TransferToMain();
      }
    }
  }
}
