/**
 * The editor's session state: the layer stack and the selection, and the
 * handlers that replace them one step at a time (upload, reorder, remove,
 * select, deselect, save as PNG).
 */
module Editor {
  import opened LayerStack
  import StackProperties

  /** Size of the card in virtual pixels; the capture is taken at this size. */
  const CardWidth := 1280
  const CardHeight := 1600
  const PixelRatio := 1
  const DownloadName := "photocard.png"

  /** What the rasterizer is handed: the card as it is rendered at that moment, and the capture options. */
  datatype CaptureRequest = CaptureRequest(layers: seq<Layer>, selection: Option<Id>, width: int, height: int, pixelRatio: int)

  /** The rasterizer's answer: a PNG data URL, or a rejected promise. */
  datatype Raster = Png(dataUrl: string) | Rejected

  /** How a save ended: the PNG was handed to a download link, there was no card to capture, or the capture rejected. */
  datatype SaveResult =
    | Downloaded(request: CaptureRequest, fileName: string, href: string)
    | NoCard
    | CaptureFailed(request: CaptureRequest)

  class Session {
    var images: seq<Layer>
    var selectedId: Option<Id>

    /** Layer ids are distinct and a non-null selection names a layer on the stack. */
    ghost predicate Valid()
      reads this
    {
      DistinctIds(images) && SelectionNamesLayer(images, selectedId)
    }

    /** A fresh editor: no layers, nothing selected. */
    constructor ()
      ensures Valid()
      ensures images == [] && selectedId == None
    {
      images := [];
      selectedId := None;
    }

    /** The file input's change handler: one layer per picked file, appended on top. */
    method HandleUpload(files: seq<PickedFile>)
      requires Valid() && FreshIds(images, files)
      modifies this
      ensures Valid()
      ensures images == AppendUploads(old(images), files)
      ensures |images| == |old(images)| + |files| && images[..|old(images)|] == old(images)
      ensures selectedId == old(selectedId)
    {
      StackProperties.UploadKeepsInvariant(images, files, selectedId);
      images := AppendUploads(images, files);
    }

    /** The "Back" button: the selected layer goes to the bottom of the stack. */
    method MoveSelectionToBack()
      requires Valid()
      modifies this
      ensures Valid()
      ensures selectedId == old(selectedId)
      ensures !IsSet(old(selectedId)) ==> images == old(images)
      ensures IsSet(old(selectedId)) ==>
        && images == MoveToBack(old(images), old(selectedId).value)
        && images[0].id == old(selectedId).value
        && multiset(images) == multiset(old(images))
    {
      if !IsSet(selectedId) {
        return;
      }
      StackProperties.MoveToBackPermutes(images, selectedId.value);
      images := MoveToBack(images, selectedId.value);
    }

    /** The "Front" button: the selected layer goes to the top of the stack. */
    method MoveSelectionToFront()
      requires Valid()
      modifies this
      ensures Valid()
      ensures selectedId == old(selectedId)
      ensures !IsSet(old(selectedId)) ==> images == old(images)
      ensures IsSet(old(selectedId)) ==>
        && images == MoveToFront(old(images), old(selectedId).value)
        && images[|images| - 1].id == old(selectedId).value
        && multiset(images) == multiset(old(images))
    {
      if !IsSet(selectedId) {
        return;
      }
      var id := selectedId.value;
      StackProperties.MoveToFrontPermutes(images, id);
      images := MoveToFront(images, id);
    }

    /** The delete button: drop every layer with the id; clear the selection if it named that id. */
    method RemoveImage(id: Id)
      requires Valid()
      modifies this
      ensures Valid()
      ensures images == Without(old(images), id)
      ensures !HasId(images, id)
      ensures !HasId(old(images), id) ==> images == old(images)
      ensures selectedId == if old(selectedId) == Some(id) then None else old(selectedId)
    {
      StackProperties.WithoutKeepsDistinct(images, id);
      StackProperties.RemoveKeepsSelection(images, selectedId, id);
      images := Without(images, id);
      if selectedId == Some(id) {
        selectedId := None;
      }
    }

    /** Mouse-down on a rendered layer selects it. */
    method SelectLayer(id: Id)
      requires Valid() && HasId(images, id)
      modifies this
      ensures Valid()
      ensures selectedId == Some(id) && images == old(images)
    {
      selectedId := Some(id);
    }

    /** A click on the empty workspace around the card clears the selection. */
    method Deselect()
      requires Valid()
      modifies this
      ensures Valid()
      ensures selectedId == None && images == old(images)
    {
      selectedId := None;
    }

    /**
     * "Download PNG": clear the selection so that no border or delete button is
     * captured, rasterize the card if it is mounted, hand the PNG to a download
     * link, then put the selection back. A rejected capture leaves the method
     * before the selection is put back.
     */
    method SaveImage(cardMounted: bool, rasterize: CaptureRequest -> Raster) returns (result: SaveResult)
      requires Valid()
      modifies this
      ensures Valid()
      ensures images == old(images)
      ensures result.NoCard? <==> !cardMounted
      ensures !result.NoCard? ==>
        result.request == CaptureRequest(old(images), None, CardWidth, CardHeight, PixelRatio)
      ensures result.CaptureFailed? <==> cardMounted && rasterize(result.request).Rejected?
      ensures result.Downloaded? ==>
        result.fileName == DownloadName && rasterize(result.request) == Png(result.href)
      ensures selectedId == if result.CaptureFailed? then None else old(selectedId)
    {
      var originalSelection := selectedId;
      selectedId := None;
      if cardMounted {
        var request := CaptureRequest(images, selectedId, CardWidth, CardHeight, PixelRatio);
        var raster := rasterize(request);
        if raster.Rejected? {
          return CaptureFailed(request);
        }
        result := Downloaded(request, DownloadName, raster.dataUrl);
      } else {
        result := NoCard;
      }
      selectedId := originalSelection;
    }
  }
}
