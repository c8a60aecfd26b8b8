/**
 * The older challenge service (`src/imhumane/service.rs`): answers are kept
 * under the challenge id and `check_answer` consumes them; there are no
 * validated tokens. Challenge construction is the shared `Generation` module.
 */
module LegacyService {
  import opened Bits
  import opened Domain
  import opened Generation

  datatype Outcome = Outcome(ok: bool, after: map<string, u32>)

  /**
   * `check_answer`: a known id is removed and the check succeeds exactly when
   * the stored answer equals the given one; an unknown id fails and leaves
   * the answers as they were.
   */
  function AfterCheckAnswer(answers: map<string, u32>, id: string, answer: u32): (r: Outcome)
    ensures r.ok <==> id in answers && answers[id] == answer
    ensures r.after == answers - {id}
    ensures id !in answers ==> r.after == answers
  {
    if id in answers then Outcome(answers[id] == answer, answers - {id})
    else Outcome(false, answers)
  }

  /** One call into the answer table: the generator recording, or a client checking. */
  datatype Call = Record(id: string, answer: u32) | Check(id: string, answer: u32)

  function Apply(answers: map<string, u32>, c: Call): Outcome {
    match c
    case Record(id, a) => Outcome(true, answers[id := a])
    case Check(id, a) => AfterCheckAnswer(answers, id, a)
  }

  /** The number of successful checks of id over a sequence of calls, and the final table. */
  function Successes(answers: map<string, u32>, calls: seq<Call>, id: string): (nat, map<string, u32>)
  {
    if calls == [] then (0, answers)
    else
      var (n, before) := Successes(answers, calls[..|calls| - 1], id);
      var c := calls[|calls| - 1];
      var o := Apply(before, c);
      (n + (if o.ok && c.Check? && c.id == id then 1 else 0), o.after)
  }

  function Records(calls: seq<Call>, id: string): nat {
    if calls == [] then 0
    else Records(calls[..|calls| - 1], id) + (if calls[|calls| - 1].Record? && calls[|calls| - 1].id == id then 1 else 0)
  }

  /**
   * Answers are one-shot: over any sequence of calls, the successful checks
   * of id never exceed the number of times id was recorded (plus one if it
   * was already pending at the start).
   */
  lemma {:induction false} ChecksBounded(answers: map<string, u32>, calls: seq<Call>, id: string)
    ensures var (n, after) := Successes(answers, calls, id);
      n + (if id in after then 1 else 0) <= (if id in answers then 1 else 0) + Records(calls, id)
  {
    if calls != [] {
      ChecksBounded(answers, calls[..|calls| - 1], id);
    }
  }

  /** A challenge id recorded once can be answered successfully at most once. */
  lemma AnsweredAtMostOnce(answers: map<string, u32>, calls: seq<Call>, id: string)
    requires id !in answers && Records(calls, id) <= 1
    ensures Successes(answers, calls, id).0 <= 1
  {
    ChecksBounded(answers, calls, id);
  }

  class ImHumane {
    var queue: seq<Challenge>
    var collections: seq<Collection>
    var answers: map<string, u32>

    /** `ImHumane::new`: everything empty (the queue's capacity is not modelled). */
    constructor ()
      ensures queue == [] && collections == [] && answers == map[]
    {
      queue := [];
      collections := [];
      answers := map[];
    }

    method CheckAnswer(challengeId: string, answer: u32) returns (ok: bool)
      modifies this
      ensures Outcome(ok, answers) == AfterCheckAnswer(old(answers), challengeId, answer)
      ensures queue == old(queue) && collections == old(collections)
    {
      if challengeId in answers {
        var correctAnswer := answers[challengeId];
        answers := answers - {challengeId};
        return correctAnswer == answer;
      }
      return false;
    }

    /**
     * One round of `run_generator`: a generated challenge has its answer
     * recorded under its id before it is queued; a failed generation changes
     * nothing.
     */
    method RunGeneratorStep(draw: Draw) returns (r: Result<Challenge>)
      requires |collections| >= MinSampled ==> ValidDraw(collections, draw)
      modifies this
      ensures collections == old(collections)
      ensures r.Err? <==> |collections| < MinSampled
      ensures r.Ok? ==> answers == old(answers)[r.value.id := r.value.answer]
      ensures r.Ok? ==> queue == old(queue) + [r.value]
      ensures r.Err? ==> answers == old(answers) && queue == old(queue)
      ensures r.Ok? ==> r.value.id == draw.id && r.value.topic == collections[draw.sample[0]].name
    {
      r := Generate(collections, draw);
      if r.Ok? {
        answers := answers[r.value.id := r.value.answer];
        queue := queue + [r.value];
      }
    }
  }
}
