/** The label that remembers which image a container replaced. */
module PreviousImage {
  import opened Collections
  import opened Docker

  const PREVIOUS_IMAGE_LABEL := "deployx.previousImage"

  function ReadPreviousImage(inspection: Option<Container>): Option<string> {
    if inspection.Some? && PREVIOUS_IMAGE_LABEL in inspection.value.labels
       && inspection.value.labels[PREVIOUS_IMAGE_LABEL] != ""
    then Some(inspection.value.labels[PREVIOUS_IMAGE_LABEL])
    else None
  }

  function ResolvePreviousImage(outgoing: Option<Container>, newImage: string): Option<string> {
    if outgoing.None? || outgoing.value.image == "" then None
    else if outgoing.value.image != newImage then Some(outgoing.value.image)
    else ReadPreviousImage(outgoing)
  }

  function WithPreviousImageLabel(labels: map<string, string>, previous: Option<string>): map<string, string> {
    if previous.None? || previous.value == "" then labels else labels[PREVIOUS_IMAGE_LABEL := previous.value]
  }

  /** The container a deploy of `image` puts in the place of `outgoing`. */
  function Successor(outgoing: Option<Container>, image: string, labels: map<string, string>): Container {
    Container(image, WithPreviousImageLabel(labels, ResolvePreviousImage(outgoing, image)), true)
  }

  /** What is written is read back. */
  lemma LabelReadsBack(image: string, labels: map<string, string>, previous: Option<string>, running: bool)
    requires PREVIOUS_IMAGE_LABEL !in labels && previous != Some("")
    ensures ReadPreviousImage(Some(Container(image, WithPreviousImageLabel(labels, previous), running))) == previous
  {
  }

  /** The container after deploying a history of images, oldest first. */
  function Deployed(history: seq<string>, labels: map<string, string>): Option<Container> {
    if history == [] then None
    else Some(Successor(Deployed(history[..|history| - 1], labels), history[|history| - 1], labels))
  }

  /** The most recent image of the history that differs from `image`. */
  function LastDifferent(history: seq<string>, image: string): Option<string> {
    if history == [] then None
    else if history[|history| - 1] != image then Some(history[|history| - 1])
    else LastDifferent(history[..|history| - 1], image)
  }

  /** However often an image is redeployed, the label names the image that ran before it: redeploys do not erase
      the rollback target, and no container targets itself. */
  lemma {:induction false} LabelIsLastDifferent(history: seq<string>, labels: map<string, string>)
    requires PREVIOUS_IMAGE_LABEL !in labels && history != []
    requires forall i :: 0 <= i < |history| ==> history[i] != ""
    ensures Deployed(history, labels).Some? && Deployed(history, labels).value.image == history[|history| - 1]
    ensures ReadPreviousImage(Deployed(history, labels)) == LastDifferent(history, history[|history| - 1])
  {
    var before, image := history[..|history| - 1], history[|history| - 1];
    if before != [] {
      LabelIsLastDifferent(before, labels);
      LabelReadsBack(image, labels, ResolvePreviousImage(Deployed(before, labels), image), true);
    }
  }

  lemma {:induction false} LastDifferentDiffers(history: seq<string>, image: string)
    ensures LastDifferent(history, image) != Some(image)
  {
    if history != [] {
      LastDifferentDiffers(history[..|history| - 1], image);
    }
  }
}
