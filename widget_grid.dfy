/**
 * The client-side challenge grid: one checkbox per collage tile, a submit
 * button that disables itself when clicked, and the answer string read from
 * the checkboxes in creation order.
 */
module WidgetGrid {
  import opened Domain
  import Generation

  /**
   * What the client reads from the challenge response headers. The numeric
   * headers are taken as already-parsed naturals.
   */
  datatype ClientChallenge = ClientChallenge(
    challengeId: string,
    topic: string,
    gapSize: nat,
    imageSize: nat,
    gridLength: nat)

  /** `Challenge.validate`'s test: only 204 No Content means the answer was accepted. */
  predicate Accepted(status: int)
    ensures Accepted(status) ==> 200 <= status < 300 && status != 200
  {
    status == 204
  }

  function Digit(checked: bool): char {
    if checked then '1' else '0'
  }

  /**
   * `readAnswer`'s reduce: the checkbox states folded left to right into a
   * string of '0' and '1', one character per checkbox.
   */
  function AnswerString(checked: seq<bool>): (r: string)
    ensures |r| == |checked|
    ensures forall i :: 0 <= i < |r| ==> (r[i] == '1' <==> checked[i]) && (r[i] == '0' <==> !checked[i])
  {
    if checked == [] then ""
    else AnswerString(checked[..|checked| - 1]) + [Digit(checked[|checked| - 1])]
  }

  /** The answer string determines the selection: different selections give different strings. */
  lemma AnswerStringInjective(a: seq<bool>, b: seq<bool>)
    requires AnswerString(a) == AnswerString(b)
    ensures a == b
  {
    assert |a| == |b|;
    forall i | 0 <= i < |a|
      ensures a[i] == b[i]
    {
      assert AnswerString(a)[i] == AnswerString(b)[i];
    }
  }

  /**
   * `containerLength`: n cells and n + 1 gaps along each side of the grid.
   */
  function ContainerLength(gapSize: nat, imageSize: nat, gridLength: nat): (r: nat)
    ensures r == (gridLength + 1) * gapSize + gridLength * imageSize
  {
    gapSize + ((gapSize + imageSize) * gridLength)
  }

  lemma ContainerLengthExample()
    ensures ContainerLength(4, 100, 3) == 316
  {
  }

  /**
   * With the server's gap and tile sizes, the client's container is exactly
   * as wide as the collage the server draws for the same grid length.
   */
  lemma ContainerMatchesCanvas(gridLength: nat)
    ensures ContainerLength(Generation.GapPx, Generation.ImgSizePx, gridLength) == Generation.CanvasSide(gridLength)
  {
  }

  class ChallengeGrid {
    const challenge: ClientChallenge
    /** The `checked` state of each checkbox, in the order the checkboxes were created. */
    const checkboxes: array<bool>
    var buttonDisabled: bool

    /** Creates gridLength² unchecked checkboxes, in order, and an enabled submit button. */
    constructor (challenge: ClientChallenge)
      ensures this.challenge == challenge
      ensures fresh(checkboxes)
      ensures checkboxes.Length == challenge.gridLength * challenge.gridLength
      ensures forall i :: 0 <= i < checkboxes.Length ==> !checkboxes[i]
      ensures !buttonDisabled
    {
      var count := challenge.gridLength * challenge.gridLength;
      var boxes := new bool[count];
      var i := 1;
      while i <= count
        invariant 1 <= i <= count + 1
        invariant forall k :: 0 <= k < i - 1 ==> !boxes[k]
      {
        boxes[i - 1] := false;
        i := i + 1;
      }
      this.challenge := challenge;
      checkboxes := boxes;
      buttonDisabled := false;
    }

    /**
     * `readAnswer`: one character per checkbox, '1' exactly where the
     * checkbox is checked.
     */
    function ReadAnswer(): (r: string)
      reads this, checkboxes
      ensures |r| == checkboxes.Length
      ensures forall i :: 0 <= i < |r| ==> (r[i] == '1' <==> checkboxes[i]) && (r[i] == '0' <==> !checkboxes[i])
    {
      AnswerString(checkboxes[..])
    }

    /** The user toggling checkbox i (the browser's default action for a click on it). */
    method Toggle(i: nat)
      requires i < checkboxes.Length
      modifies checkboxes
      ensures checkboxes[i] == !old(checkboxes[i])
      ensures forall k :: 0 <= k < checkboxes.Length && k != i ==> checkboxes[k] == old(checkboxes[k])
    {
      checkboxes[i] := !checkboxes[i];
    }

    /**
     * A click on the submit button. An enabled button disables itself and
     * resolves `waitForAnswer` with the current answer; a disabled button
     * dispatches no click, so nothing happens.
     */
    method Submit() returns (answer: Option<string>)
      modifies this
      ensures buttonDisabled
      ensures answer == if old(buttonDisabled) then None else Some(ReadAnswer())
    {
      if buttonDisabled {
        return None;
      }
      buttonDisabled := true;
      answer := Some(ReadAnswer());
    }

    /** `reset`: every checkbox unchecked and the button enabled again. */
    method Reset()
      modifies this, checkboxes
      ensures forall i :: 0 <= i < checkboxes.Length ==> !checkboxes[i]
      ensures !buttonDisabled
      ensures ReadAnswer() == AnswerString(seq(checkboxes.Length, _ => false))
    {
      var i := 0;
      while i < checkboxes.Length
        invariant 0 <= i <= checkboxes.Length
        invariant forall k :: 0 <= k < i ==> !checkboxes[k]
      {
        checkboxes[i] := false;
        i := i + 1;
      }
      buttonDisabled := false;
      assert checkboxes[..] == seq(checkboxes.Length, _ => false);
    }
  }
}
