/** The edit dialog of a post (frontend/src/components/Blog/EditPost.tsx):
    the stored images it starts from, the list of files chosen for upload,
    and the form's `images` value that mirrors that list. */
module EditPost {
  import opened Common
  import opened ClientModels
  import BlogRoute

  /** JavaScript `s.split(sep)`: the pieces between separators, at least one. */
  function Split(s: string, sep: char): (r: seq<string>)
    ensures |r| >= 1
    ensures forall i :: 0 <= i < |r| ==> sep !in r[i]
  {
    if |s| == 0 then [""]
    else
      var rest := Split(s[1..], sep);
      if s[0] == sep then [""] + rest
      else [[s[0]] + rest[0]] + rest[1..]
  }

  /** `parts.join(sep)`. */
  function Join(parts: seq<string>, sep: char): string
    requires |parts| >= 1
  {
    if |parts| == 1 then parts[0] else parts[0] + [sep] + Join(parts[1..], sep)
  }

  /** Splitting loses nothing: joining the pieces gives the string back. */
  lemma {:induction false} JoinSplit(s: string, sep: char)
    ensures Join(Split(s, sep), sep) == s
  {
    if |s| > 0 {
      var rest := Split(s[1..], sep);
      JoinSplit(s[1..], sep);
      if s[0] == sep {
        assert Split(s, sep) == [""] + rest;
        assert Join(Split(s, sep), sep) == "" + [sep] + Join(rest, sep);
      } else {
        var r := Split(s, sep);
        assert r == [[s[0]] + rest[0]] + rest[1..];
        if |rest| == 1 {
          assert Join(r, sep) == [s[0]] + rest[0];
        } else {
          assert r[1..] == rest[1..];
          assert Join(r, sep) == [s[0]] + rest[0] + [sep] + Join(rest[1..], sep);
          assert Join(rest, sep) == rest[0] + [sep] + Join(rest[1..], sep);
        }
      }
    }
  }

  /** The stored images the dialog lists: an array as it is, a non-empty
      string split on commas, nothing otherwise. */
  function ExistingImages(f: ImagesField): (r: seq<string>)
    ensures f.ImageArray? ==> r == f.urls
    ensures f.ImageText? && f.text != "" ==> |r| >= 1 && Join(r, ',') == f.text
    ensures f.ImageText? && f.text != "" ==> forall i :: 0 <= i < |r| ==> ',' !in r[i]
    ensures f.NoImages? || (f.ImageText? && f.text == "") ==> r == []
  {
    match f
    case ImageArray(urls) => urls
    case ImageText(text) => if text != "" then (JoinSplit(text, ','); Split(text, ',')) else []
    case NoImages => []
  }

  /** A string without the separator is one piece; one with it is several. */
  lemma {:induction false} SplitCount(s: string, sep: char)
    ensures sep !in s ==> Split(s, sep) == [s]
    ensures sep in s ==> |Split(s, sep)| >= 2
  {
    if |s| > 0 {
      SplitCount(s[1..], sep);
      if s[0] != sep {
        assert sep in s <==> sep in s[1..];
        assert [s[0]] + s[1..] == s;
      }
    }
  }

  /** The dialog and the list screen read a stored string alike unless it
      holds a comma: then the list shows one image and the dialog several. */
  lemma DialogAndListAgreeWithoutCommas(f: ImagesField)
    ensures f.ImageText? && ',' !in f.text ==> ExistingImages(f) == BlogRoute.GalleryImages(f)
    ensures f.ImageText? && ',' in f.text ==>
              |BlogRoute.GalleryImages(f)| == 1 && |ExistingImages(f)| >= 2
  {
    if f.ImageText? {
      SplitCount(f.text, ',');
    }
  }

  /** What a submit sends: the position field and the pending files. */
  datatype Payload = Payload(position: int, images: seq<FileRef>)

  /** The rules registered on the position input: `required` and `min: 1`.
      An empty input is `None`. */
  predicate PositionValid(position: Option<int>)
  {
    position.Some? && position.value >= 1
  }

  /** The dialog's state. `imagesValue` is the form's "images" field, None
      for undefined; `position` is the position input, None when empty, and
      `defaultPosition` the value a reset restores; `dirty` is the form's
      dirtiness; `payloads` are the requests sent by the submits so far. */
  class EditPostForm {
    var files: seq<FileDetail>
    var existingImages: seq<string>
    var imagesValue: Option<seq<FileRef>>
    var position: Option<int>
    var defaultPosition: int
    var dirty: bool
    var payloads: seq<Payload>

    /** The form's "images" value is either undefined with no pending
        files, or exactly the pending files. */
    predicate Valid()
      reads this
    {
      (imagesValue.None? && files == []) || imagesValue == Some(FileRefs(files))
    }

    constructor (post: PostPublic)
      ensures Valid()
      ensures files == [] && existingImages == ExistingImages(post.images)
      ensures imagesValue.None? && !dirty && payloads == []
      ensures position == Some(post.position) && defaultPosition == post.position
    {
      files := [];
      existingImages := ExistingImages(post.images);
      imagesValue := None;
      position := Some(post.position);
      defaultPosition := post.position;
      dirty := false;
      payloads := [];
    }

    /** Opening the dialog resets the form, the stored images and the
        pending files. */
    method Open(post: PostPublic)
      modifies this`files, this`existingImages, this`imagesValue, this`position, this`defaultPosition, this`dirty
      ensures Valid()
      ensures files == [] && existingImages == ExistingImages(post.images)
      ensures imagesValue.None? && !dirty
      ensures position == Some(post.position) && defaultPosition == post.position
    {
      imagesValue := None;
      position := Some(post.position);
      defaultPosition := post.position;
      dirty := false;
      existingImages := ExistingImages(post.images);
      files := [];
    }

    /** A text field edited by the user. */
    method Touch()
      modifies this`dirty
      ensures dirty
    {
      dirty := true;
    }

    /** The position input edited by the user; clearing it gives `None`. */
    method EditPosition(value: Option<int>)
      modifies this`position, this`dirty
      ensures position == value && dirty
    {
      position := value;
      dirty := true;
    }

    /** Chosen files go after the pending ones, in the order chosen; an
        empty choice (`None`) changes nothing. */
    method AddFiles(selected: Option<seq<FileDetail>>)
      requires Valid()
      modifies this`files, this`imagesValue, this`dirty
      ensures Valid()
      ensures selected.None? ==> files == old(files) && imagesValue == old(imagesValue) && dirty == old(dirty)
      ensures selected.Some? ==> files == old(files) + selected.value && dirty
    {
      if selected.None? {
        return;
      }
      files := files + selected.value;
      imagesValue := Some(ValueOr(imagesValue, []) + FileRefs(selected.value));
      FileRefsAppend(old(files), selected.value);
      dirty := true;
    }

    /** Removes exactly the pending file at `index`; the form value becomes
        undefined when none is left. */
    method RemoveFile(index: int)
      requires Valid() && 0 <= index < |files|
      modifies this`files, this`imagesValue, this`dirty
      ensures Valid()
      ensures files == RemoveAt(old(files), index)
      ensures files == [] <==> imagesValue.None?
      ensures dirty
    {
      files := RemoveAt(files, index);
      imagesValue := if |files| > 0 then Some(FileRefs(files)) else None;
      dirty := true;
    }

    /** A stored image leaves the list only when the server's delete
        succeeded; a failed delete changes nothing. */
    method DeleteImage(url: string, deleted: bool)
      requires Valid()
      modifies this`existingImages, this`imagesValue, this`dirty
      ensures Valid()
      ensures deleted ==> existingImages == Filter(old(existingImages), (img: string) => img != url) && dirty
      ensures !deleted ==> existingImages == old(existingImages) && imagesValue == old(imagesValue) && dirty == old(dirty)
    {
      if !deleted {
        return;
      }
      var before := existingImages;
      existingImages := Filter(existingImages, (img: string) => img != url);
      imagesValue := if |files| > 0 || |before| > 1 then Some(FileRefs(files)) else None;
      dirty := true;
    }

    /** Save is disabled exactly when nothing was edited, no file is pending
        and no stored image is listed. */
    predicate SaveDisabled()
      reads this
    {
      !dirty && files == [] && existingImages == []
    }

    /** `handleSubmit` validates first: with the position empty or below 1
        nothing is sent and nothing changes. Otherwise the submit sends the
        position and the pending files in list order, and a success clears
        the files and resets the form to its defaults. */
    method Submit(succeeded: bool) returns (sent: Option<Payload>)
      requires Valid()
      modifies this`files, this`imagesValue, this`position, this`dirty, this`payloads
      ensures Valid()
      ensures !PositionValid(old(position)) ==>
                sent.None? && payloads == old(payloads) && files == old(files)
                && imagesValue == old(imagesValue) && position == old(position) && dirty == old(dirty)
      ensures PositionValid(old(position)) ==>
                && sent == Some(Payload(old(position).value, FileRefs(old(files))))
                && payloads == old(payloads) + [sent.value]
                && (old(imagesValue).Some? ==> sent.value.images == old(imagesValue).value)
      ensures PositionValid(old(position)) && succeeded ==>
                files == [] && imagesValue.None? && position == Some(defaultPosition) && !dirty
      ensures PositionValid(old(position)) && !succeeded ==>
                files == old(files) && imagesValue == old(imagesValue) && position == old(position)
                && dirty == old(dirty)
    {
      if !PositionValid(position) {
        return None;
      }
      var payload := Payload(position.value, FileRefs(files));
      payloads := payloads + [payload];
      sent := Some(payload);
      if succeeded {
        files := [];
        imagesValue := None;
        position := Some(defaultPosition);
        dirty := false;
      }
    }
  }
}
