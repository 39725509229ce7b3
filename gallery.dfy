/** The gallery page (`Gallery`): the list of stored images, a multiple selection over them
    and the two actions on the selection, with the guards that decide when each acts and
    when its button is shown. The requests are given by their outcome; reloading the list
    and the statistics after a delete is not modelled. */
module Gallery {
  import opened Wrappers
  import opened Selection

  /** An image of the list: its id and stored file name. */
  datatype GalleryImage = GalleryImage(imageId: string, filename: string)

  /** `images[i]` is the first image with that id. */
  predicate FirstWithId(images: seq<GalleryImage>, imageId: string, i: int)
  {
    0 <= i < |images| && images[i].imageId == imageId && forall k :: 0 <= k < i ==> images[k].imageId != imageId
  }

  /** `images.find(img => img.image_id === imageId)`: the first image with that id. */
  function FindImage(images: seq<GalleryImage>, imageId: string): (r: Option<GalleryImage>)
    ensures r.None? <==> forall i :: 0 <= i < |images| ==> images[i].imageId != imageId
    ensures r.Some? ==> exists i :: FirstWithId(images, imageId, i) && images[i] == r.value
  {
    if |images| == 0 then None
    else if images[0].imageId == imageId then
      assert FirstWithId(images, imageId, 0);
      Some(images[0])
    else
      var rest := FindImage(images[1..], imageId);
      if rest.Some? then
        var i :| FirstWithId(images[1..], imageId, i) && images[1..][i] == rest.value;
        assert FirstWithId(images, imageId, i + 1);
        rest
      else rest
  }

  /** Which floating buttons are shown: delete for any selection, use-as-query only for
      exactly one image; none while the list is loading. */
  datatype Buttons = Buttons(delete: bool, useAsQuery: bool)

  function ButtonsOf(loading: bool, selected: seq<string>): (b: Buttons)
    ensures b.delete <==> !loading && |selected| > 0
    ensures b.useAsQuery <==> !loading && |selected| == 1
    ensures b.useAsQuery ==> b.delete
  {
    if loading then Buttons(false, false)
    else Buttons(|selected| > 0, |selected| > 0 && |selected| == 1)
  }

  class GalleryPage {
    var images: seq<GalleryImage>
    var selectedImages: seq<string>
    var loading: bool

    ghost predicate Valid()
      reads this
    {
      Distinct(selectedImages)
    }

    /** The page before its first load. */
    constructor ()
      ensures Valid() && images == [] && selectedImages == [] && loading
    {
      images := [];
      selectedImages := [];
      loading := true;
    }

    /** `handleSelectImage`: the image joins the selection at the end, or leaves it. */
    method HandleSelectImage(imageId: string)
      requires Valid()
      modifies this
      ensures Valid()
      ensures selectedImages == Toggle(old(selectedImages), imageId)
      ensures imageId in selectedImages <==> imageId !in old(selectedImages)
      ensures forall other :: other != imageId ==> (other in selectedImages <==> other in old(selectedImages))
      ensures images == old(images) && loading == old(loading)
    {
      ToggleDistinct(selectedImages, imageId);
      ToggleMembership(selectedImages, imageId);
      selectedImages := Toggle(selectedImages, imageId);
    }

    /** `handleDeleteSelected`, given the answer to the confirmation and whether the delete
        request succeeds. It returns the ids sent for deletion, if any. */
    method HandleDeleteSelected(confirmed: bool, deleted: bool) returns (request: Option<seq<string>>)
      requires Valid()
      modifies this
      ensures Valid()
      ensures request.Some? <==> |old(selectedImages)| > 0 && confirmed
      ensures request.Some? ==> request.value == old(selectedImages)
      ensures selectedImages == if request.Some? && deleted then [] else old(selectedImages)
      ensures images == old(images) && loading == old(loading)
    {
      if |selectedImages| == 0 {
        return None;
      }
      if !confirmed {
        return None;
      }
      request := Some(selectedImages);
      if deleted {
        selectedImages := [];
      }
    }

    /** `handleUseAsQuery`: with exactly one image selected, and that image in the list and a
        callback given, it hands the image's id and file name to the callback. */
    method HandleUseAsQuery(hasCallback: bool) returns (r: Option<(string, string)>)
      requires Valid()
      ensures r.Some? <==> |selectedImages| == 1 && FindImage(images, selectedImages[0]).Some? && hasCallback
      ensures r.Some? ==> r.value == (selectedImages[0], FindImage(images, selectedImages[0]).value.filename)
      ensures r.Some? ==> exists i :: 0 <= i < |images| && images[i].imageId == r.value.0 && images[i].filename == r.value.1
    {
      if |selectedImages| != 1 {
        return None;
      }
      var imageId := selectedImages[0];
      var image := FindImage(images, imageId);
      if image.Some? && hasCallback {
        r := Some((imageId, image.value.filename));
      } else {
        r := None;
      }
    }
  }
}
