/** The gallery of frontend/src/components/ImageSlider.jsx: the index of
    the main image and of the full-screen view, moved by the arrows with
    wrap-around, and the keys the full-screen view answers to. */
module ImageSlider {

  /** `prev === 0 ? images.length - 1 : prev - 1`. */
  function Previous(n: nat, i: nat): (r: nat)
    requires n >= 1 && i < n
    ensures r < n
    ensures i == 0 ==> r == n - 1
    ensures i > 0 ==> r == i - 1
  {
    if i == 0 then n - 1 else i - 1
  }

  /** `prev === images.length - 1 ? 0 : prev + 1`. */
  function Next(n: nat, i: nat): (r: nat)
    requires n >= 1 && i < n
    ensures r < n
    ensures i == n - 1 ==> r == 0
    ensures i < n - 1 ==> r == i + 1
  {
    if i == n - 1 then 0 else i + 1
  }

  /** Each arrow undoes the other. */
  lemma PreviousNextInverse(n: nat, i: nat)
    requires n >= 1 && i < n
    ensures Previous(n, Next(n, i)) == i
    ensures Next(n, Previous(n, i)) == i
  {
  }

  /** Pressing "next" k times. */
  function NextTimes(n: nat, i: nat, k: nat): (r: nat)
    requires n >= 1 && i < n
    ensures r < n
    decreases k
  {
    if k == 0 then i else NextTimes(n, Next(n, i), k - 1)
  }

  /** Below the last image, next counts up. */
  lemma {:induction false} NextTimesCountsUp(n: nat, i: nat, k: nat)
    requires n >= 1 && i + k < n
    ensures NextTimes(n, i, k) == i + k
    decreases k
  {
    if k > 0 {
      NextTimesCountsUp(n, i + 1, k - 1);
    }
  }

  /** Pressing a + b times is pressing a times, then b times. */
  lemma {:induction false} NextTimesAdd(n: nat, i: nat, a: nat, b: nat)
    requires n >= 1 && i < n
    ensures NextTimes(n, i, a + b) == NextTimes(n, NextTimes(n, i, a), b)
    decreases a
  {
    if a > 0 {
      NextTimesAdd(n, Next(n, i), a - 1, b);
    }
  }

  /** Going once round the gallery comes back to the same image: up to the
      last image, over to the first, and up again. */
  lemma NextRoundTrip(n: nat, i: nat)
    requires n >= 1 && i < n
    ensures NextTimes(n, i, n) == i
  {
    NextTimesAdd(n, i, n - 1 - i, 1 + i);
    NextTimesCountsUp(n, i, n - 1 - i);
    NextTimesAdd(n, n - 1, 1, i);
    assert NextTimes(n, n - 1, 1) == 0;
    NextTimesCountsUp(n, 0, i);
  }

  /** The component's state. `n` is the number of images; with none the
      placeholder is rendered and no index is used. */
  datatype Slider = Slider(current: nat, modalOpen: bool, modal: nat)

  predicate Valid(n: nat, s: Slider) {
    n >= 1 && s.current < n && s.modal < n
  }

  /** What the gallery answers to. */
  datatype Input = ArrowPrev | ArrowNext | Thumbnail(index: nat) | Open | Close
                 | ModalPrev | ModalNext | Key(key: string)

  /** What the main area shows: the placeholder, or the current image with
      the arrows and the "i / n" counter when there is more than one. */
  datatype Display = Placeholder | Image(index: nat, arrows: bool)

  /** With no images the placeholder is shown and no index is read. */
  function Shown(n: nat, current: nat): (d: Display)
    requires n >= 1 ==> current < n
    ensures d.Placeholder? <==> n == 0
    ensures d.Image? ==> d.index == current && d.index < n
    ensures d.Image? ==> (d.arrows <==> n > 1)
  {
    if n == 0 then Placeholder else Image(current, n > 1)
  }

  /** One input. A thumbnail exists for each image only; clicking the main
      image opens the full-screen view at it; the keyboard acts only while
      that view is open. */
  function Step(n: nat, s: Slider, i: Input): (r: Slider)
    requires Valid(n, s)
    requires i.Thumbnail? ==> i.index < n
    ensures Valid(n, r)
    ensures i.ArrowPrev? ==> r == s.(current := Previous(n, s.current))
    ensures i.ArrowNext? ==> r == s.(current := Next(n, s.current))
    ensures i.Open? ==> r.modalOpen && r.modal == s.current && r.current == s.current
    ensures !s.modalOpen && i.Key? ==> r == s
    ensures s.modalOpen && i == Key("Escape") ==> r == s.(modalOpen := false)
    ensures s.modalOpen && i == Key("ArrowLeft") ==> r == s.(modal := Previous(n, s.modal))
    ensures s.modalOpen && i == Key("ArrowRight") ==> r == s.(modal := Next(n, s.modal))
    ensures !i.Open? && !i.Close? && !i.Key? ==> r.modalOpen == s.modalOpen
  {
    match i
    case ArrowPrev => s.(current := Previous(n, s.current))
    case ArrowNext => s.(current := Next(n, s.current))
    case Thumbnail(k) => s.(current := k)
    case Open => s.(modal := s.current, modalOpen := true)
    case Close => s.(modalOpen := false)
    case ModalPrev => s.(modal := Previous(n, s.modal))
    case ModalNext => s.(modal := Next(n, s.modal))
    case Key(key) =>
      if !s.modalOpen then s
      else if key == "ArrowLeft" then s.(modal := Previous(n, s.modal))
      else if key == "ArrowRight" then s.(modal := Next(n, s.modal))
      else if key == "Escape" then s.(modalOpen := false)
      else s
  }

  /** From the initial state, any sequence of inputs keeps both indices in
      range. */
  function Run(n: nat, s: Slider, inputs: seq<Input>): (r: Slider)
    requires Valid(n, s)
    requires forall k :: 0 <= k < |inputs| && inputs[k].Thumbnail? ==> inputs[k].index < n
    ensures Valid(n, r)
    decreases |inputs|
  {
    if inputs == [] then s else Run(n, Step(n, s, inputs[0]), inputs[1..])
  }

  /** The initial state: both indices 0, the view closed. */
  lemma InitialIsValid(n: nat)
    requires n >= 1
    ensures Valid(n, Slider(0, false, 0))
  {
  }

  /** The two arrow pairs move their own index only. */
  lemma ArrowsAreIndependent(n: nat, s: Slider)
    requires Valid(n, s)
    ensures Step(n, s, ArrowNext).modal == s.modal
    ensures Step(n, s, ModalNext).current == s.current
    ensures Step(n, Step(n, s, ArrowNext), ArrowPrev) == s
    ensures Step(n, Step(n, s, ModalNext), ModalPrev) == s
  {
  }
}
