# Photo-card editor: layer stack and selection

A model of the in-session document state of the photo-card editor
(`src/App.jsx`). The user uploads images. Each becomes a *layer* on a
1280×1600 card. The user selects a layer by pressing on it and can send it to
the back or the front, or delete it. Finally the user downloads the card as a
PNG.

The editor's state is two React state cells: `images`, the layer stack in
paint order (index 0 is painted first, furthest back), and `selectedId`, which
is null or a layer id. The model has four parts:

- `LayerStack` (`layer_stack.dfy`) holds the pure list operations that the
  handlers build from `find`, `filter` and array spread. Each is a function
  over `seq<Layer>`.
- `StackProperties` (`stack_properties.dfy`) proves what those operations
  promise together:
  - the filter is the only order-preserving selection of the other layers;
  - with distinct ids, reordering is a permutation;
  - "Front" and "Back" are idempotent, and each one undoes the other's effect
    on the order of the other layers;
  - removing a freshly uploaded layer undoes that part of the upload;
  - the session invariant is preserved.
- `PaintOrder` (`paint_order.dfy`) holds the z-indices: a layer at position
  `i` is drawn at `i + 1`, the frame at 200 and the text overlay at 300.
- `Editor` (`editor_session.dfy`) holds the class `Session`. Its fields
  `images` and `selectedId` are updated by one method per handler. Each
  method's `ensures` gives the new state as a function of the old one.
  `Valid()` is the invariant that every handler keeps: layer ids are distinct,
  and a non-null selection names a layer on the stack.

Values that the browser supplies are parameters. The layer id (drawn from
`Math.random`) and the object URL arrive as a `PickedFile`. Whether the card
element is mounted is a `bool`. The rasterizer is a function from the capture
request to a PNG data URL or a rejection.

Three facts about `src/App.jsx` shape the model:

- **Failed capture.** The save handler has no `try`/`catch`. A rejected
  capture therefore leaves the handler before the selection is put back
  (line 71), so the selection stays cleared and no failure is reported.
- **Reorder with an absent id.** The reorder handlers splice in the result of
  `find` without checking it; if the selection named no layer, `undefined`
  would be inserted. The model requires the id to be present, and
  `Session.Valid()` guarantees that it is.
- **Capture settings.** The capture always uses pixel ratio 1 at 1280×1600,
  and the PNG always goes to a download link named `photocard.png`.

## Model

| member | source | states |
|---|---|---|
| `LayerStack.Without` | src/App.jsx:51-52 | the filtered stack keeps every layer whose id differs, as often as the stack has it. It keeps nothing else and preserves the original order (a subsequence). No layer with the id remains. An absent id leaves the stack unchanged. |
| `LayerStack.Find` | src/App.jsx:39 | `find` returns nothing exactly when no layer has the id. Otherwise it returns a layer with that id that is on the stack, with no layer of that id before it. |
| `LayerStack.AppendUploads` | src/App.jsx:24-34 | upload appends one layer per file after all existing layers, in file order, and leaves the existing layers unchanged. Each new layer has the file's id and url, width 600, height 600, x 340 and y 500. |
| `LayerStack.MoveToBack` | src/App.jsx:37-42 | the layer `find` returns (the first with that id) is at index 0. The remaining layers are exactly the other layers, in their original relative order. |
| `LayerStack.MoveToFront` | src/App.jsx:44-49 | the layer `find` returns is at the last index. The layers before it are exactly the other layers, as often as the stack has them (their order is the next row). |
| `StackProperties.MoveToFrontKeepsOrder` | src/App.jsx:44-49 | the layers before the moved one keep their original relative order (a subsequence of the old stack). |
| `StackProperties.WithoutIsUnique` | src/App.jsx:52 | any order-preserving selection of exactly the layers with a different id equals the filtered stack, so the filter's contract determines it completely. |
| `StackProperties.WithoutConcat` | src/App.jsx:52 | filtering a concatenation is concatenating the filtered parts. |
| `StackProperties.FindSkips` | src/App.jsx:39 | `find` passes over a prefix that holds no layer with the id. |
| `StackProperties.SplitAtSelected` | src/App.jsx:39-40 | with distinct ids, the selected layer sits at a single index `i`. `find` returns it, and the filter yields the stack with index `i` cut out. |
| `StackProperties.WithoutKeepsDistinct` | src/App.jsx:52 | removing layers keeps the remaining ids pairwise distinct. |
| `StackProperties.MoveToBackPermutes` | src/App.jsx:37-42 | with distinct ids, "Back" returns a permutation of the stack: same length, same multiset of layers, ids still distinct, and the moved id still present. |
| `StackProperties.MoveToFrontPermutes` | src/App.jsx:44-49 | with distinct ids, "Front" returns a permutation of the stack: same length, same multiset of layers, ids still distinct, and the moved id still present. |
| `StackProperties.MoveToFrontIdempotent` | src/App.jsx:44-49 | applying "Front" twice equals applying it once. |
| `StackProperties.MoveToBackIdempotent` | src/App.jsx:37-42 | applying "Back" twice equals applying it once. |
| `StackProperties.FrontThenBack` | src/App.jsx:37-49 | "Front" followed by "Back" gives the same stack as "Back" alone, so the other layers are back in their original order. |
| `StackProperties.BackThenFront` | src/App.jsx:37-49 | "Back" followed by "Front" gives the same stack as "Front" alone. |
| `StackProperties.RemoveUndoesUpload` | src/App.jsx:24-52 | for an upload of any number of files with fresh, distinct ids, removing the layer made from file `k` gives the stack that uploading the other files alone would give. For a one-file upload, that is the stack from before the upload. |
| `StackProperties.UploadKeepsInvariant` | src/App.jsx:24-34 | an upload whose ids are fresh and pairwise distinct keeps ids distinct, and a selection that named a layer still names one. |
| `StackProperties.RemoveKeepsSelection` | src/App.jsx:51-54 | after removal, with the selection cleared when it equalled the removed id and kept otherwise, a non-null selection still names a present layer. |
| `PaintOrder.ZIndexOf` | src/App.jsx:144 | the rendered z-index of a layer id is absent exactly when no layer has it. Otherwise it is between 1 and the stack size, the layer at that position minus one has the id, and no earlier layer does. |
| `PaintOrder.LayersBelowFrame` | src/App.jsx:144 | with at most 199 layers, every layer's z-index is below the frame's 200, which is below the text overlay's 300. Z-indices strictly increase with stack position. |
| `PaintOrder.TopLayerAboveFrame` | src/App.jsx:144 | 199 is the bound for the strict inequality. At 200 layers the top layer's z-index equals the frame's 200; the frame comes later in the document (line 172), so it still paints above. With 201 or more layers, the top layer's z-index exceeds the frame's. |
| `PaintOrder.ReorderZIndex` | src/App.jsx:144 | with distinct ids, after "Front" the selected layer has the highest z-index (the stack size), and after "Back" it has z-index 1. |
| `Editor.Session.constructor` | src/App.jsx:15-16 | the editor starts with no layers and no selection, and the invariant holds. |
| `Editor.Session.HandleUpload` | src/App.jsx:24-35 | the stack becomes the old stack followed by the uploaded layers, with the old layers unchanged and the selection unchanged. The invariant is kept. |
| `Editor.Session.MoveSelectionToBack` | src/App.jsx:37-42 | with no selection (null or the empty id), nothing changes. Otherwise the stack becomes "Back" of the old stack: the selected layer is at index 0 and the multiset of layers is unchanged. The selection and the invariant are kept. |
| `Editor.Session.MoveSelectionToFront` | src/App.jsx:44-49 | with no selection, nothing changes. Otherwise the selected layer moves to the last index and the multiset of layers is unchanged. The selection and the invariant are kept. |
| `Editor.Session.RemoveImage` | src/App.jsx:51-54 | the stack becomes the filtered stack, and an absent id leaves it unchanged. The selection becomes null if it equalled the id and is unchanged otherwise. The invariant is kept. |
| `Editor.Session.SelectLayer` | src/App.jsx:142 | pressing on a layer of the stack makes its id the selection and leaves the stack unchanged. |
| `Editor.Session.Deselect` | src/App.jsx:125 | a click on the empty workspace sets the selection to null and leaves the stack unchanged. |
| `Editor.Session.SaveImage` | src/App.jsx:56-72 | the rasterizer is handed the unchanged stack with a null selection, at 1280×1600 and pixel ratio 1. On success the PNG goes to a link named `photocard.png` and the selection equals its value before the call. When the card is absent the selection is also restored. When the capture rejects, the selection stays null. The stack is unchanged throughout. |

## Left out

- Rasterization and delivery: `toPng`, the creation of the `<a download>` element and `link.click()` (src/App.jsx:60-69) are foreign library and DOM calls. The capture is the parameter `rasterize`, and the download is returned as a `Downloaded` value.
- Drag and resize happen inside `react-rnd`, which receives only `default` geometry. Nothing writes back to `images`, so stored geometry never changes after upload.
- Id and URL generation (`Math.random`, `URL.createObjectURL`): both are injected through `PickedFile`.
- Editor.Session.HandleUpload: requires the injected ids to be fresh and pairwise distinct. The source draws them from `Math.random` and does not check for collisions (or for the empty id that a draw of 0 would give). Distinct ids are part of `Session.Valid()`; the pure functions do not assume them. On a collision, "Back" and "Front" keep only the first layer with the id and drop its copies, because `find` returns one layer and `filter` removes all of them.
- LayerStack.MoveToBack, LayerStack.MoveToFront: require the id to be on the stack. With an absent id the source inserts `undefined`, which the model cannot represent; `Session.Valid()` rules this case out for the handlers.
- Interleaving during the awaited capture: the model runs `SaveImage` as one step. In the browser, the user could select and delete a layer while the capture is pending, and line 71 would then restore a selection that names no layer. `removeImage` also reads `images` from its render closure; in a sequential model that is always the current stack.
- The title and detail text fields (`title`, `details`) and the default date formatted with `Intl.DateTimeFormat("bn-BD")`: these are plain text state set by input handlers, with no logic to model.
- Rendering (JSX and the `styles` object), apart from the three z-index constants in `PaintOrder`. This is presentation only.
- vite.config.js: build configuration with no logic.
