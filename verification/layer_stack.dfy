/**
 * The editor's layer stack: the uploaded images of the photo card, in paint
 * order (index 0 is painted first, i.e. furthest back), and the pure list
 * operations the editor's handlers build from `find`, `filter` and array
 * spread.
 */
module LayerStack {

  datatype Option<+T> = None | Some(value: T)

  /** Layer ids and object URLs are opaque strings handed out by the browser. */
  type Id = string
  type Url = string

  /** One uploaded image placed on the card; geometry is in card pixels. */
  datatype Layer = Layer(id: Id, url: Url, width: int, height: int, x: int, y: int)

  /** What the upload handler learns about one picked file: the id drawn for it and its object URL. */
  datatype PickedFile = PickedFile(id: Id, url: Url)

  /** Default geometry of a freshly uploaded layer. */
  const DefaultWidth := 600
  const DefaultHeight := 600
  const DefaultX := 340
  const DefaultY := 500

  predicate HasId(s: seq<Layer>, id: Id) {
    exists i | 0 <= i < |s| :: s[i].id == id
  }

  predicate DistinctIds(s: seq<Layer>) {
    forall i, j | 0 <= i < j < |s| :: s[i].id != s[j].id
  }

  /** The selection counts as set the way JavaScript tests it: neither null nor the empty string. */
  predicate IsSet(selection: Option<Id>) {
    selection.Some? && selection.value != ""
  }

  /** A non-null selection names a layer of the stack. */
  predicate SelectionNamesLayer(s: seq<Layer>, selection: Option<Id>) {
    selection.Some? ==> HasId(s, selection.value)
  }

  /** `a` is `b` with some elements dropped, the rest in their original order. */
  predicate Subsequence(a: seq<Layer>, b: seq<Layer>)
    decreases |b|
  {
    if a == [] then true
    else if b == [] then false
    else (a[0] == b[0] && Subsequence(a[1..], b[1..])) || Subsequence(a, b[1..])
  }

  /** `r` holds every layer of `s` whose id is not `id`, as often as `s` does, and nothing else. */
  ghost predicate ExactlyOthers(r: seq<Layer>, s: seq<Layer>, id: Id) {
    forall l: Layer {:trigger multiset(r)[l]} :: multiset(r)[l] == if l.id == id then 0 else multiset(s)[l]
  }

  /** The stack filtered down to the layers whose id differs from `id`. */
  function Without(s: seq<Layer>, id: Id): (r: seq<Layer>)
    ensures ExactlyOthers(r, s, id)
    ensures Subsequence(r, s)
    ensures |r| <= |s|
    ensures !HasId(r, id)
    ensures !HasId(s, id) ==> r == s
  {
    if s == [] then []
    else
      assert s == [s[0]] + s[1..];
      var rest := Without(s[1..], id);
      if s[0].id == id then
        rest
      else
        assert ([s[0]] + rest)[1..] == rest;
        [s[0]] + rest
  }

  /** The first layer of the stack with the given id, if any. */
  function Find(s: seq<Layer>, id: Id): (r: Option<Layer>)
    ensures r.None? <==> !HasId(s, id)
    ensures r.Some? ==> r.value.id == id && r.value in s
    ensures r.Some? ==> exists i | 0 <= i < |s| :: s[i] == r.value && forall j | 0 <= j < i :: s[j].id != id
  {
    if s == [] then None
    else if s[0].id == id then Some(s[0])
    else
      var r := Find(s[1..], id);
      assert forall k | 0 <= k < |s| - 1 :: s[1..][k] == s[k + 1];
      r
  }

  function NewLayer(file: PickedFile): (l: Layer) {
    Layer(file.id, file.url, DefaultWidth, DefaultHeight, DefaultX, DefaultY)
  }

  /** The stack after an upload: one new layer per picked file, on top of the existing ones. */
  function AppendUploads(s: seq<Layer>, files: seq<PickedFile>): (r: seq<Layer>)
    ensures |r| == |s| + |files|
    ensures r[..|s|] == s
    ensures forall k | 0 <= k < |files| ::
      r[|s| + k] == Layer(files[k].id, files[k].url, 600, 600, 340, 500)
  {
    s + seq(|files|, k requires 0 <= k < |files| => NewLayer(files[k]))
  }

  /** The picked files carry ids that are pairwise distinct and not yet on the stack. */
  predicate FreshIds(s: seq<Layer>, files: seq<PickedFile>) {
    && (forall k | 0 <= k < |files| :: !HasId(s, files[k].id))
    && (forall k, m | 0 <= k < m < |files| :: files[k].id != files[m].id)
  }

  /** The stack after "Back": the layer `find` picks, then all the others. */
  function MoveToBack(s: seq<Layer>, id: Id): (r: seq<Layer>)
    requires HasId(s, id)
    ensures |r| >= 1 && r[0].id == id && r[0] in s
    ensures Find(s, id) == Some(r[0])
    ensures Subsequence(r[1..], s) && ExactlyOthers(r[1..], s, id)
  {
    var r := [Find(s, id).value] + Without(s, id);
    assert r[1..] == Without(s, id);
    r
  }

  /** The stack after "Front": all the other layers, then the layer `find` picks. */
  function MoveToFront(s: seq<Layer>, id: Id): (r: seq<Layer>)
    requires HasId(s, id)
    ensures |r| >= 1 && r[|r| - 1].id == id && r[|r| - 1] in s
    ensures Find(s, id) == Some(r[|r| - 1])
    ensures ExactlyOthers(r[..|r| - 1], s, id)
  {
    var r := Without(s, id) + [Find(s, id).value];
    assert r[..|r| - 1] == Without(s, id);
    r
  }
}
