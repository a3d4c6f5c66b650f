/** The thumbnail strip and lightbox of a row
    (frontend/src/components/Modals/ModalImageGallery.tsx). */
module ImageGallery {
  import opened Common

  /** JavaScript `images.slice(0, n)`: a negative end counts from the back. */
  function Thumbnails(images: seq<string>, n: int): (r: seq<string>)
    ensures 0 <= n <= |images| ==> r == images[..n]
    ensures n > |images| ==> r == images
    ensures n < 0 ==> r == images[..if |images| + n < 0 then 0 else |images| + n]
  {
    var end := if n < 0 then (if |images| + n < 0 then 0 else |images| + n)
               else if n > |images| then |images| else n;
    images[..end]
  }

  /** The "+k" badge on the thumbnail at `index`, if any: only the thumbnail
      at n-1, only when some images are hidden, counting the hidden ones. */
  function Badge(images: seq<string>, n: int, index: int): (r: Option<int>)
    ensures r.Some? <==> index == n - 1 && |images| > n
    ensures r.Some? ==> r.value == |images| - n
  {
    if index == n - 1 && |images| > n then Some(|images| - n) else None
  }

  /** With a positive n and hidden images the badge sits on the last shown
      thumbnail and the shown thumbnails plus the badge count are all the
      images; without hidden images no shown thumbnail has a badge. */
  lemma BadgeCountsTheRest(images: seq<string>, n: int)
    ensures n >= 1 && |images| > n ==>
              var shown := Thumbnails(images, n);
              |shown| == n && Badge(images, n, |shown| - 1).Some?
              && |shown| + Badge(images, n, |shown| - 1).value == |images|
    ensures |images| <= n ==> forall i :: 0 <= i < |Thumbnails(images, n)| ==> Badge(images, n, i).None?
  {
  }

  /** The gallery's state: its copy of the images, whether the lightbox is
      open and the slide it shows. */
  class Gallery {
    var images: seq<string>
    var isOpen: bool
    var currentIndex: int

    constructor ()
      ensures images == [] && !isOpen && currentIndex == 0
    {
      images := [];
      isOpen := false;
      currentIndex := 0;
    }

    /** The effect on a new `images` prop: a missing list reads as empty. */
    method Sync(initial: Option<seq<string>>)
      modifies this`images
      ensures images == ValueOr(initial, [])
    {
      images := ValueOr(initial, []);
    }

    /** A thumbnail click opens the lightbox at that image, and does nothing
        when there are no images. */
    method OpenLightbox(index: int)
      modifies this`isOpen, this`currentIndex
      ensures |images| > 0 ==> isOpen && currentIndex == index
      ensures |images| == 0 ==> isOpen == old(isOpen) && currentIndex == old(currentIndex)
    {
      if |images| > 0 {
        currentIndex := index;
        isOpen := true;
      }
    }

    method CloseLightbox()
      modifies this`isOpen
      ensures !isOpen
    {
      isOpen := false;
    }

    /** The lightbox's slides: every image, in order -- not just the thumbnails. */
    function Slides(): seq<string>
      reads this
    {
      images
    }
  }

  /** A click on a shown thumbnail opens a slide that exists. */
  lemma ClickedThumbnailIsASlide(images: seq<string>, n: int, index: int)
    requires 0 <= index < |Thumbnails(images, n)|
    ensures index < |images| && images[index] == Thumbnails(images, n)[index]
  {
  }
}
