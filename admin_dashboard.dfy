/** The product form and inbox helpers of
    frontend/src/pages/AdminDashboard.jsx: the size toggle, adding and
    removing colours, which images a submit sends, the new-message badge
    and the status buttons of a message. */
module AdminDashboard {
  import opened Wrappers
  import opened Seqs
  import opened ProductModel
  import ProductRoutes
  import ContactRoutes

  /** `handleSizeToggle`: a size that is listed is filtered out, one that is
      not is appended. */
  function SizeToggle(sizes: seq<string>, size: string): (r: seq<string>)
    ensures size in r <==> size !in sizes
    ensures forall x :: x != size ==> (x in r <==> x in sizes)
    ensures size !in sizes ==> r == sizes + [size]
  {
    if size in sizes then Filter(sizes, (s: string) => s != size) else sizes + [size]
  }

  /** The toggle keeps the list free of duplicates. */
  lemma SizeToggleKeepsDistinct(sizes: seq<string>, size: string)
    requires Distinct(sizes)
    ensures Distinct(SizeToggle(sizes, size))
  {
    if size in sizes {
      FilterPairwise(sizes, (s: string) => s != size, (a: string, b: string) => a != b);
      assert Pairwise(sizes, (a: string, b: string) => a != b);
    }
  }

  /** Toggling a size twice lists the same sizes as before. An unlisted size
      leaves the list exactly as it was; a listed one moves to the end. */
  lemma SizeToggleTwice(sizes: seq<string>, size: string)
    ensures forall x :: x in SizeToggle(SizeToggle(sizes, size), size) <==> x in sizes
    ensures size !in sizes ==> SizeToggle(SizeToggle(sizes, size), size) == sizes
  {
    if size !in sizes {
      var p := (s: string) => s != size;
      FilterAppend(sizes, [size], p);
      FilterAll(sizes, p);
      assert Filter([size], p) == [];
    }
  }

  /** `handleColorAdd`: `prompt` gives `null` on cancel; the colour is added
      only when both answers are non-empty. */
  function ColorAdd(colors: seq<Color>, name: Option<string>, code: Option<string>): (r: seq<Color>)
    ensures name.Some? && name.value != "" && code.Some? && code.value != "" ==>
      r == colors + [Color(name.value, code.value)]
    ensures !(name.Some? && name.value != "" && code.Some? && code.value != "") ==> r == colors
  {
    if name.Some? && name.value != "" && code.Some? && code.value != "" then
      colors + [Color(name.value, code.value)]
    else colors
  }

  /** Every colour the form collects has a name and a code, as the schema's
      colour entries need. */
  lemma ColorAddKeepsNamed(colors: seq<Color>, name: Option<string>, code: Option<string>)
    requires forall i :: 0 <= i < |colors| ==> colors[i].name != "" && colors[i].code != ""
    ensures var r := ColorAdd(colors, name, code);
      forall i :: 0 <= i < |r| ==> r[i].name != "" && r[i].code != ""
  {
  }

  /** `colors.filter((_, i) => i !== idx)`: every colour but the one at
      `idx`, in order; an index past the end removes nothing. */
  function ColorRemove(colors: seq<Color>, idx: nat): (r: seq<Color>)
    ensures idx < |colors| ==> |r| == |colors| - 1
    ensures idx >= |colors| ==> r == colors
    ensures forall i :: 0 <= i < idx && i < |r| ==> r[i] == colors[i]
    ensures forall i :: idx <= i < |r| ==> r[i] == colors[i + 1]
  {
    if idx < |colors| then colors[..idx] + colors[idx + 1..] else colors
  }

  /** Removal takes exactly one copy of the chosen colour out of the
      collection. */
  lemma ColorRemoveDropsOne(colors: seq<Color>, idx: nat)
    requires idx < |colors|
    ensures multiset(ColorRemove(colors, idx)) + multiset{colors[idx]} == multiset(colors)
  {
    assert colors == colors[..idx] + [colors[idx]] + colors[idx + 1..];
  }

  /** Removing the colour just added gives back the list before. */
  lemma ColorRemoveUndoesAdd(colors: seq<Color>, name: string, code: string)
    requires name != "" && code != ""
    ensures ColorRemove(ColorAdd(colors, Some(name), Some(code)), |colors|) == colors
  {
    var r := ColorAdd(colors, Some(name), Some(code));
    assert r[..|colors|] == colors;
  }

  /** The `images` parts of the form a submit sends: the kept list, as
      JSON, only when editing with no new files and a non-empty list; the
      new files always. */
  datatype ImageParts = ImageParts(existing: Option<seq<string>>, files: seq<string>)

  function ImagePayload(editing: bool, images: seq<string>, files: seq<string>): (r: ImageParts)
    ensures r.existing.Some? <==> editing && |files| == 0 && |images| > 0
    ensures r.existing.Some? ==> r.existing.value == images
    ensures r.files == files
  {
    if editing && |files| == 0 && |images| > 0 then ImageParts(Some(images), files)
    else ImageParts(None, files)
  }

  /** What an edit does to the product's images, given the URLs the server
      assigns to the uploaded files: new files replace all the images, since
      the kept list is not sent with them; otherwise the form's list is
      kept, or the stored one when the form's is empty. */
  lemma EditImages(current: seq<string>, images: seq<string>, files: seq<string>, urls: seq<string>)
    requires |urls| == |files|
    ensures var parts := ImagePayload(true, images, files);
      var r := ProductRoutes.NewImages(current, parts.existing, urls);
      && (|files| > 0 ==> r == urls)
      && (|files| == 0 && |images| > 0 ==> r == images)
      && (|files| == 0 && |images| == 0 ==> r == current)
  {
  }

  /** `contactMessages.filter(m => m.status === 'new').length`. */
  function NewMessageCount(messages: seq<ContactRoutes.ContactMessage>): (n: nat)
    ensures n <= |messages|
    ensures n == 0 <==> forall i :: 0 <= i < |messages| ==> messages[i].status != "new"
  {
    Count(messages, IsNew)
  }

  predicate IsNew(m: ContactRoutes.ContactMessage) {
    m.status == "new"
  }

  /** The count is exact: one more message raises it by one exactly when the
      message is new. */
  lemma NewMessageCountSnoc(messages: seq<ContactRoutes.ContactMessage>, m: ContactRoutes.ContactMessage)
    ensures NewMessageCount(messages + [m]) == NewMessageCount(messages) + (if m.status == "new" then 1 else 0)
  {
    CountSnoc(messages, m, IsNew);
  }

  /** The badge on the messages tab: shown, with the count, only when some
      message is new. */
  function Badge(messages: seq<ContactRoutes.ContactMessage>): (b: Option<nat>)
    ensures b.Some? <==> exists i :: 0 <= i < |messages| && messages[i].status == "new"
    ensures b.Some? ==> b.value == NewMessageCount(messages) && b.value > 0
  {
    var n := NewMessageCount(messages);
    if n > 0 then Some(n) else None
  }

  /** The status buttons of a message: "Mark as Read" while it is new,
      "Mark as Replied" until it is replied. */
  function StatusButtons(status: string): (r: seq<string>)
    ensures "read" in r <==> status == "new"
    ensures "replied" in r <==> status != "replied"
    ensures forall i :: 0 <= i < |r| ==> ContactRoutes.ValidStatus(r[i])
  {
    (if status == "new" then ["read"] else []) + (if status != "replied" then ["replied"] else [])
  }

  /** The order new, read, replied. */
  function Rank(status: string): int {
    if status == "new" then 0 else if status == "read" then 1 else 2
  }

  /** The buttons only move a message forward, so a replied message offers
      none. */
  lemma StatusButtonsMoveForward(status: string)
    requires ContactRoutes.ValidStatus(status)
    ensures forall i :: 0 <= i < |StatusButtons(status)| ==> Rank(StatusButtons(status)[i]) > Rank(status)
    ensures status == "replied" <==> StatusButtons(status) == []
  {
  }
}
