/** The image editor of an item (frontend/src/components/Items/EditableImages.tsx):
    stored images that can be deleted and chosen files waiting for upload. */
module EditableImages {
  import opened Common
  import opened ClientModels

  class ImagesEditor {
    var existingImages: seq<string>
    var files: seq<FileDetail>
    /** The file lists of the upload requests sent so far. */
    var uploads: seq<seq<FileRef>>

    constructor (initialImages: seq<string>)
      ensures existingImages == initialImages && files == [] && uploads == []
    {
      existingImages := initialImages;
      files := [];
      uploads := [];
    }

    /** Chosen files go after the pending ones; an empty choice changes nothing. */
    method AddFiles(selected: Option<seq<FileDetail>>)
      modifies this`files
      ensures files == old(files) + ValueOr(selected, [])
    {
      if selected.None? {
        return;
      }
      files := files + selected.value;
    }

    /** Removes exactly the pending file at `index`. */
    method RemoveFile(index: int)
      requires 0 <= index < |files|
      modifies this`files
      ensures files == RemoveAt(old(files), index)
    {
      files := RemoveAt(files, index);
    }

    /** A stored image leaves the list only after the server deleted it. */
    method DeleteImage(url: string, deleted: bool)
      modifies this`existingImages
      ensures deleted ==> existingImages == Filter(old(existingImages), (img: string) => img != url)
      ensures !deleted ==> existingImages == old(existingImages)
    {
      if deleted {
        existingImages := Filter(existingImages, (img: string) => img != url);
      }
    }

    /** Upload: with nothing pending no request is made; otherwise the
        pending files are sent in order and a success clears the list. */
    method Upload(succeeded: bool) returns (request: Option<seq<FileRef>>)
      modifies this`files, this`uploads
      ensures old(files) == [] ==> request.None? && uploads == old(uploads) && files == []
      ensures old(files) != [] ==> request == Some(FileRefs(old(files))) && uploads == old(uploads) + [request.value]
      ensures old(files) != [] && succeeded ==> files == []
      ensures old(files) != [] && !succeeded ==> files == old(files)
    {
      if files == [] {
        return None;
      }
      request := Some(FileRefs(files));
      uploads := uploads + [request.value];
      if succeeded {
        files := [];
      }
    }
  }

  /** A deleted URL is gone from the list and every other stored image
      stays, in order. */
  lemma DeletedImageIsGone(images: seq<string>, url: string)
    ensures url !in Filter(images, (img: string) => img != url)
    ensures forall x :: x in images && x != url ==> x in Filter(images, (img: string) => img != url)
    ensures Subsequence(Filter(images, (img: string) => img != url), images)
  {
    FilterIsSubsequence(images, (img: string) => img != url);
  }
}
