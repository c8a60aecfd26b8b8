/**
 * The client widget's container and its `runUntilComplete` loop: load a
 * challenge, show its grid, wait for the submit click, validate the answer,
 * and either finish with the challenge id as the token or, after a delay,
 * clear the grid and start over with a fresh challenge.
 *
 * The awaited promises (the fetch, the click, the validation response, the
 * 3000 ms delay) become events; one `Step` is what the loop does between two
 * awaits.
 */
module WidgetLifecycle {
  import opened WidgetGrid

  const LoadingText: string := "Loading"
  const ValidatingText: string := "Validating"
  const SuccessText: string := "Success!"
  const IncorrectText: string := "Failed: Incorrect selection"
  const ErrorPrefix: string := "Validation failed: "
  const SuccessClass: string := "imhumane-success"
  const ClassPrefix: string := "imhumane-"

  /** Where the loop is waiting. */
  datatype Phase =
    | Loading                                 // fetching a challenge
    | Answering(challenge: ClientChallenge)   // grid shown, waiting for the submit click
    | Validating(challenge: ClientChallenge)  // answer posted, waiting for the response
    | Waiting(challenge: ClientChallenge)     // failure shown, waiting out the delay
    | Succeeded(challenge: ClientChallenge)   // loop returned
    | Rejected                                // the fetch failed: the loop's promise is rejected

  datatype Overlay = Hidden | Shown(text: string)

  /** The contents of the container's style element: its own rules, plus one grid's. */
  datatype StyleSheet = Base | WithGrid(challenge: ClientChallenge)

  /** The body of a validation POST. */
  datatype Request = Request(answer: string, challengeId: string)

  /**
   * What the page shows and what has left it: the overlay, the grids rendered
   * into the body element, the style element, the hidden token input, the
   * root element's classes, the validation requests sent and the
   * `imhumane-success` events dispatched (their tokens).
   */
  datatype View = View(
    phase: Phase,
    overlay: Overlay,
    body: seq<ClientChallenge>,
    style: StyleSheet,
    token: string,
    rootClasses: set<string>,
    requests: seq<Request>,
    dispatched: seq<string>)

  /** How an awaited promise settles. */
  datatype Event =
    | Fetched(challenge: ClientChallenge)
    | FetchFailed
    | Clicked(selection: seq<bool>)
    | Responded(status: int)
    | ValidateThrew(error: string)
    | DelayElapsed

  predicate Finished(p: Phase) {
    p.Succeeded? || p.Rejected?
  }

  /** The number of checkboxes of the grid built for c. */
  function Boxes(c: ClientChallenge): nat {
    c.gridLength * c.gridLength
  }

  /**
   * One pass of the loop between two awaits; an event nobody awaits changes
   * nothing. A click carries the checkbox states of the grid on the page, so
   * a selection of any other length cannot come from it and is ignored.
   */
  function Step(v: View, e: Event): (r: View)
    ensures Finished(v.phase) ==> r == v
    ensures |v.requests| <= |r.requests| <= |v.requests| + 1 && r.requests[..|v.requests|] == v.requests
    ensures |r.requests| > |v.requests| ==>
              v.phase.Answering? && e.Clicked? && |e.selection| == Boxes(v.phase.challenge)
              && r.requests[|v.requests|] == Request(AnswerString(e.selection), v.phase.challenge.challengeId)
    ensures r.phase.Succeeded? && !v.phase.Succeeded? ==>
              v.phase.Validating? && e.Responded? && Accepted(e.status) && r.token == v.phase.challenge.challengeId
  {
    match (v.phase, e)
    case (Loading, Fetched(c)) =>
      v.(phase := Answering(c), style := WithGrid(c), body := v.body + [c], overlay := Hidden)
    case (Loading, FetchFailed) =>
      v.(phase := Rejected)
    case (Answering(c), Clicked(selection)) =>
      if |selection| == Boxes(c) then
        v.(phase := Validating(c), overlay := Shown(ValidatingText),
           requests := v.requests + [Request(AnswerString(selection), c.challengeId)])
      else v
    case (Validating(c), Responded(status)) =>
      if Accepted(status) then
        v.(phase := Succeeded(c), overlay := Shown(SuccessText), rootClasses := v.rootClasses + {SuccessClass},
           token := c.challengeId, dispatched := v.dispatched + [c.challengeId])
      else
        v.(phase := Waiting(c), overlay := Shown(IncorrectText))
    case (Validating(c), ValidateThrew(error)) =>
      v.(phase := Waiting(c), overlay := Shown(ErrorPrefix + error))
    case (Waiting(c), DelayElapsed) =>
      v.(phase := Loading, body := [], style := Base, overlay := Shown(LoadingText))
    case _ => v
  }

  /** The loop over a sequence of settled promises. */
  function Run(v: View, events: seq<Event>): View {
    if events == [] then v else Step(Run(v, events[..|events| - 1]), events[|events| - 1])
  }

  lemma RunSnoc(v: View, events: seq<Event>, i: nat)
    requires i < |events|
    ensures Run(v, events[..i + 1]) == Step(Run(v, events[..i]), events[i])
  {
    assert events[..i + 1][..i] == events[..i];
  }

  lemma RunThree(v: View, a: Event, b: Event, c: Event)
    ensures Run(v, [a, b]) == Step(Step(v, a), b)
    ensures Run(v, [a, b, c]) == Step(Step(Step(v, a), b), c)
  {
    assert [a][..0] == [];
    assert Run(v, [a]) == Step(v, a);
    assert [a, b][..1] == [a];
    assert Run(v, [a, b]) == Step(Run(v, [a]), b);
    assert [a, b, c][..2] == [a, b];
    assert Run(v, [a, b, c]) == Step(Run(v, [a, b]), c);
  }

  /** The top of the loop: the overlay says "Loading" and a fetch starts. */
  function Restart(v: View): View {
    v.(phase := Loading, overlay := Shown(LoadingText))
  }

  /** The grid of c is the only thing rendered and its rules are in the style element. */
  predicate Showing(v: View, c: ClientChallenge) {
    v.body == [c] && v.style == WithGrid(c)
  }

  /** The last request sent is the answer to c, one digit per checkbox of its grid. */
  predicate Sent(v: View, c: ClientChallenge) {
    && v.requests != []
    && v.requests[|v.requests| - 1].challengeId == c.challengeId
    && |v.requests[|v.requests| - 1].answer| == Boxes(c)
  }

  /** Nothing of a success is visible yet. */
  predicate NotYetValid(v: View) {
    v.token == "" && SuccessClass !in v.rootClasses && v.dispatched == []
  }

  /** What the page looks like in each phase. */
  predicate Consistent(v: View) {
    match v.phase
    case Loading => v.body == [] && v.style == Base && v.overlay == Shown(LoadingText) && NotYetValid(v)
    case Rejected => v.body == [] && v.style == Base && v.overlay == Shown(LoadingText) && NotYetValid(v)
    case Answering(c) => Showing(v, c) && v.overlay == Hidden && NotYetValid(v)
    case Validating(c) => Showing(v, c) && Sent(v, c) && v.overlay == Shown(ValidatingText) && NotYetValid(v)
    case Waiting(c) => Showing(v, c) && Sent(v, c) && v.overlay.Shown? && NotYetValid(v)
    case Succeeded(c) =>
      Showing(v, c) && Sent(v, c) && v.overlay == Shown(SuccessText) && v.token == c.challengeId
      && SuccessClass in v.rootClasses && v.dispatched == [c.challengeId]
  }

  lemma StepKeepsConsistent(v: View, e: Event)
    requires Consistent(v)
    ensures Consistent(Step(v, e))
  {
  }

  /**
   * Whatever the fetches, clicks and responses, the page stays consistent:
   * at most one grid is rendered, the style element holds that grid's rules,
   * a failure clears both before the next challenge is loaded, and the token
   * is set only after a success.
   */
  lemma {:induction false} RunKeepsConsistent(v: View, events: seq<Event>)
    requires Consistent(v)
    ensures Consistent(Run(v, events))
  {
    if events != [] {
      RunKeepsConsistent(v, events[..|events| - 1]);
      StepKeepsConsistent(Run(v, events[..|events| - 1]), events[|events| - 1]);
    }
  }

  /**
   * `validate`: a response ends the loop exactly when its status is 204, and
   * then the token is the id of the challenge that was answered.
   */
  lemma SuccessIffNoContent(v: View, c: ClientChallenge, status: int)
    requires v.phase == Validating(c)
    ensures var w := Step(v, Responded(status));
      (w.phase.Succeeded? <==> status == 204)
      && (w.phase.Succeeded? ==> w.token == c.challengeId && w.dispatched == v.dispatched + [c.challengeId])
      && (!w.phase.Succeeded? ==> w.phase == Waiting(c) && w.token == v.token)
  {
  }

  /**
   * The top of the loop: a fetched challenge has its grid rendered, its rules
   * put in the style element and the overlay hidden; a failed fetch rejects
   * the loop's promise.
   */
  lemma FetchShowsGrid(v: View, d: ClientChallenge)
    requires Consistent(v) && v.phase.Loading?
    ensures var w := Step(v, Fetched(d));
      && w.phase == Answering(d) && Showing(w, d) && w.overlay == Hidden
      && w.requests == v.requests && w.token == v.token
    ensures Step(v, FetchFailed).phase == Rejected
  {
  }

  /** After the delay the grid and its rules are cleared and the loop is back at its top. */
  lemma DelayRestarts(w: View)
    requires Consistent(w) && w.phase.Waiting?
    ensures var x := Step(w, DelayElapsed);
      && x.phase == Loading && x.body == [] && x.style == Base && x.overlay == Shown(LoadingText)
      && x.requests == w.requests && x.token == w.token && Consistent(x)
  {
  }

  /**
   * A refused answer or a failed validation shows its message and waits; once
   * the delay has elapsed the grid and its rules are cleared and the loop
   * starts over, and the next fetched challenge is shown in their place.
   * Nothing of a success appears on the way and no request is sent.
   */
  lemma FailureRestartsWithNewChallenge(v: View, e: Event, d: ClientChallenge)
    requires Consistent(v) && v.phase.Validating?
    requires (e.Responded? && !Accepted(e.status)) || e.ValidateThrew?
    ensures var c := v.phase.challenge;
      var w := Step(v, e);
      && w.phase == Waiting(c) && w.token == v.token && w.requests == v.requests
      && w.overlay == Shown(if e.Responded? then IncorrectText else ErrorPrefix + e.error)
    ensures var x := Run(v, [e, DelayElapsed]);
      && x.phase == Loading && x.body == [] && x.style == Base && x.overlay == Shown(LoadingText)
      && x.requests == v.requests && x.token == v.token
    ensures var y := Run(v, [e, DelayElapsed, Fetched(d)]);
      && y.phase == Answering(d) && Showing(y, d) && y.overlay == Hidden
      && y.requests == v.requests && NotYetValid(y)
  {
    var w := Step(v, e);
    StepKeepsConsistent(v, e);
    DelayRestarts(w);
    var x := Step(w, DelayElapsed);
    FetchShowsGrid(x, d);
    StepKeepsConsistent(x, Fetched(d));
    RunThree(v, e, DelayElapsed, Fetched(d));
  }

  /** Once the loop has returned or its promise is rejected, nothing changes the page. */
  lemma {:induction false} FinishedIsFinal(v: View, events: seq<Event>)
    requires Finished(v.phase)
    ensures Run(v, events) == v
  {
    if events != [] {
      FinishedIsFinal(v, events[..|events| - 1]);
    }
  }

  /** A consistent page that has succeeded holds the id of the last answered challenge as its token. */
  lemma TokenIsLastAnsweredId(v: View)
    requires Consistent(v) && v.phase.Succeeded?
    ensures v.requests != [] && v.token == v.requests[|v.requests| - 1].challengeId
    ensures v.dispatched == [v.token] && SuccessClass in v.rootClasses
  {
  }

  function Fetches(events: seq<Event>): nat {
    if events == [] then 0
    else Fetches(events[..|events| - 1]) + (if events[|events| - 1].Fetched? then 1 else 0)
  }

  function Pending(p: Phase): nat {
    if p.Answering? then 1 else 0
  }

  /**
   * Each fetched challenge is answered at most once: the requests sent, plus
   * one for a grid still waiting for its click, never exceed the challenges
   * fetched. A failed attempt is retried only with a new challenge.
   */
  lemma {:induction false} OneRequestPerFetch(v: View, events: seq<Event>)
    ensures var w := Run(v, events);
      |w.requests| + Pending(w.phase) <= |v.requests| + Pending(v.phase) + Fetches(events)
  {
    if events != [] {
      OneRequestPerFetch(v, events[..|events| - 1]);
    }
  }

  /**
   * A submit sends one request, for the challenge whose grid is on the page,
   * with one digit per checkbox of that grid, and keeps the earlier requests.
   */
  lemma RequestAnswersShownGrid(v: View, selection: seq<bool>)
    requires Consistent(v) && v.phase.Answering?
    ensures var c := v.phase.challenge;
      var w := Step(v, Clicked(selection));
      && v.body == [c]
      && (|selection| == Boxes(c) ==>
            && w.phase == Validating(c)
            && w.requests == v.requests + [Request(AnswerString(selection), c.challengeId)]
            && |w.requests[|v.requests|].answer| == c.gridLength * c.gridLength)
      && (|selection| != Boxes(c) ==> w == v)
  {
  }

  /** The answer a grid built for c reads has exactly the length a click on the page must have. */
  lemma GridAnswerFitsPage(g: ChallengeGrid)
    requires g.checkboxes.Length == g.challenge.gridLength * g.challenge.gridLength
    ensures |g.checkboxes[..]| == Boxes(g.challenge) && |g.ReadAnswer()| == Boxes(g.challenge)
  {
  }

  /** The parts `setup` appends to the root element. */
  datatype Part = TokenInput | OverlayPart | BodyPart

  /** The container's state: the setup flag, the style elements in the document head, the root's children and the view. */
  datatype Container = Container(doneSetup: bool, headStyles: nat, rootChildren: seq<Part>, view: View)

  /** `setup`: done once; a second call changes nothing. */
  function AfterSetup(s: Container, cssClass: string): (r: Container)
    ensures r.doneSetup
    ensures s.doneSetup ==> r == s
    ensures !s.doneSetup ==> r.headStyles == s.headStyles + 1 && |r.rootChildren| == |s.rootChildren| + 3
  {
    if s.doneSetup then s
    else Container(true, s.headStyles + 1, s.rootChildren + [TokenInput, OverlayPart, BodyPart],
                   s.view.(rootClasses := s.view.rootClasses + {cssClass} - {SuccessClass}))
  }

  lemma SetupIdempotent(s: Container, cssClass: string)
    ensures AfterSetup(AfterSetup(s, cssClass), cssClass) == AfterSetup(s, cssClass)
  {
  }

  /** The class name is "imhumane-" and hex digits, so it is never the success class. */
  lemma CssClassIsNotSuccess(suffix: string)
    requires forall i :: 0 <= i < |suffix| ==> suffix[i] in "0123456789abcdef"
    ensures ClassPrefix + suffix != SuccessClass
  {
    if |ClassPrefix + suffix| == |SuccessClass| {
      assert (ClassPrefix + suffix)[9] == suffix[0];
      assert SuccessClass[9] == 's';
    }
  }

  class ChallengeContainer {
    const cssClass: string
    var doneSetup: bool
    var headStyles: nat
    var rootChildren: seq<Part>
    var view: View

    function State(): Container
      reads this
    {
      Container(doneSetup, headStyles, rootChildren, view)
    }

    /**
     * A container over a root element with the given classes; `suffix` is
     * the hex digits drawn by `Math.random`. The overlay starts visible and
     * empty, the token input empty.
     */
    constructor (rootClasses: set<string>, suffix: string)
      requires forall i :: 0 <= i < |suffix| ==> suffix[i] in "0123456789abcdef"
      ensures cssClass == ClassPrefix + suffix && cssClass != SuccessClass
      ensures !doneSetup && headStyles == 0 && rootChildren == []
      ensures view == View(Loading, Shown(""), [], Base, "", rootClasses, [], [])
    {
      CssClassIsNotSuccess(suffix);
      cssClass := ClassPrefix + suffix;
      doneSetup := false;
      headStyles := 0;
      rootChildren := [];
      view := View(Loading, Shown(""), [], Base, "", rootClasses, [], []);
    }

    method Setup()
      modifies this
      ensures State() == AfterSetup(old(State()), cssClass)
    {
      if doneSetup {
        return;
      }
      headStyles := headStyles + 1;
      view := view.(rootClasses := view.rootClasses + {cssClass} - {SuccessClass});
      rootChildren := rootChildren + [TokenInput, OverlayPart, BodyPart];
      doneSetup := true;
    }

    /**
     * `runUntilComplete` over the promises that settle, in order: it stops
     * when the loop returns or its promise is rejected, or when the events
     * run out (the loop still waiting).
     */
    method RunUntilComplete(events: seq<Event>) returns (consumed: nat)
      modifies this
      ensures consumed <= |events|
      ensures var s := AfterSetup(old(State()), cssClass);
        doneSetup && headStyles == s.headStyles && rootChildren == s.rootChildren
        && view == Run(Restart(s.view), events[..consumed])
      ensures consumed < |events| ==> Finished(view.phase)
      ensures consumed > 0 && consumed == |events| ==> !Finished(Run(Restart(AfterSetup(old(State()), cssClass).view), events[..consumed - 1]).phase)
    {
      Setup();
      var start := Restart(view);
      view := start;
      consumed := 0;
      ghost var previous := start;
      while consumed < |events| && !Finished(view.phase)
        invariant consumed <= |events|
        invariant view == Run(start, events[..consumed])
        invariant consumed > 0 ==> previous == Run(start, events[..consumed - 1]) && !Finished(previous.phase)
        invariant doneSetup && headStyles == old(AfterSetup(State(), cssClass)).headStyles
        invariant rootChildren == old(AfterSetup(State(), cssClass)).rootChildren
      {
        RunSnoc(start, events, consumed);
        previous := view;
        view := Step(view, events[consumed]);
        consumed := consumed + 1;
      }
    }
  }

  /** A freshly constructed container starts its loop from a consistent page. */
  lemma FreshContainerConsistent(rootClasses: set<string>, cssClass: string)
    requires cssClass != SuccessClass
    ensures var s := AfterSetup(Container(false, 0, [], View(Loading, Shown(""), [], Base, "", rootClasses, [], [])), cssClass);
      Consistent(Restart(s.view)) && cssClass in s.view.rootClasses
  {
  }
}
