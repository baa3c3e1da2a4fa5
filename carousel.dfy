/**
 * Index arithmetic of the site's three image carousels: the "next" step
 * `(i + 1) % n` and the two spellings of the "previous" step, the ternary
 * `i === 0 ? n - 1 : i - 1` of the galleries and `(i - 1 + n) % n` of the
 * merchandise page.
 *
 * JavaScript's `%` truncates toward zero; every dividend below is
 * non-negative, where truncation and Dafny's Euclidean `%` agree.
 */
module Carousel {

  /** `(i + 1) % n` */
  function WrapNext(i: nat, n: nat): nat
    requires n > 0
  {
    (i + 1) % n
  }

  /** `i === 0 ? n - 1 : i - 1` */
  function WrapPrevTernary(i: nat, n: nat): int
    requires n > 0
  {
    if i == 0 then n - 1 else i - 1
  }

  /** `(i - 1 + n) % n` */
  function WrapPrevMod(i: nat, n: nat): int
    requires n > 0
  {
    (i - 1 + n) % n
  }

  /** Stepping forward from a valid index gives a valid index, one further on (wrapping at the end). */
  lemma NextInRange(i: nat, n: nat)
    requires i < n
    ensures WrapNext(i, n) < n
    ensures WrapNext(i, n) == if i == n - 1 then 0 else i + 1
  {
  }

  /** Stepping back from a valid index gives a valid index, one before (wrapping at the start). */
  lemma PrevInRange(i: nat, n: nat)
    requires i < n
    ensures 0 <= WrapPrevTernary(i, n) < n
    ensures 0 <= WrapPrevMod(i, n) < n
    ensures WrapPrevMod(i, n) == WrapPrevTernary(i, n)
  {
  }

  /** Next then previous, and previous then next, both return to the starting index. */
  lemma NextPrevInverse(i: nat, n: nat)
    requires i < n
    ensures WrapPrevTernary(WrapNext(i, n), n) == i
    ensures WrapPrevMod(WrapNext(i, n), n) == i
    ensures WrapNext(WrapPrevTernary(i, n) as nat, n) == i
  {
    NextInRange(i, n);
    var j := WrapNext(i, n);
    PrevInRange(j, n);
    PrevInRange(i, n);
    var k := WrapPrevTernary(i, n) as nat;
    NextInRange(k, n);
  }
}

/** The lightbox of `components/heads-gallery.tsx`. */
module HeadsGallery {
  import opened Common
  import opened Carousel

  /** The number of entries of the gallery's image list. */
  const ImageCount: nat := 28

  class Lightbox {
    /** `selectedImage`: the index shown in the lightbox, `None` while it is closed. */
    var selectedImage: Option<nat>

    ghost predicate Valid()
      reads this
    {
      selectedImage.Some? ==> selectedImage.value < ImageCount
    }

    constructor ()
      ensures Valid() && selectedImage == None
    {
      selectedImage := None;
    }

    /** `openLightbox(index)`; the page only passes indices of its image list. */
    method OpenLightbox(index: nat)
      requires index < ImageCount
      modifies this
      ensures Valid() && selectedImage == Some(index)
    {
      selectedImage := Some(index);
    }

    method CloseLightbox()
      modifies this
      ensures Valid() && selectedImage == None
    {
      selectedImage := None;
    }

    /** `nextImage`: a no-op while the lightbox is closed. */
    method NextImage()
      requires Valid()
      modifies this
      ensures Valid()
      ensures old(selectedImage).None? ==> selectedImage == None
      ensures old(selectedImage).Some? ==> selectedImage == Some(WrapNext(old(selectedImage).value, ImageCount))
    {
      if selectedImage.Some? {
        NextInRange(selectedImage.value, ImageCount);
        selectedImage := Some(WrapNext(selectedImage.value, ImageCount));
      }
    }

    /** `prevImage`: a no-op while the lightbox is closed. */
    method PrevImage()
      requires Valid()
      modifies this
      ensures Valid()
      ensures old(selectedImage).None? ==> selectedImage == None
      ensures old(selectedImage).Some? ==> selectedImage == Some(WrapPrevTernary(old(selectedImage).value, ImageCount) as nat)
    {
      if selectedImage.Some? {
        PrevInRange(selectedImage.value, ImageCount);
        selectedImage := Some(WrapPrevTernary(selectedImage.value, ImageCount) as nat);
      }
    }
  }
}

/** The lightbox of `components/image-gallery.tsx`. */
module ImageGallery {
  import opened Common
  import opened Carousel

  const ImageCount: nat := 8

  class Lightbox {
    var selectedImage: Option<nat>

    ghost predicate Valid()
      reads this
    {
      selectedImage.Some? ==> selectedImage.value < ImageCount
    }

    constructor ()
      ensures Valid() && selectedImage == None
    {
      selectedImage := None;
    }

    method OpenLightbox(index: nat)
      requires index < ImageCount
      modifies this
      ensures Valid() && selectedImage == Some(index)
    {
      selectedImage := Some(index);
    }

    method CloseLightbox()
      modifies this
      ensures Valid() && selectedImage == None
    {
      selectedImage := None;
    }

    method NextImage()
      requires Valid()
      modifies this
      ensures Valid()
      ensures old(selectedImage).None? ==> selectedImage == None
      ensures old(selectedImage).Some? ==> selectedImage == Some(WrapNext(old(selectedImage).value, ImageCount))
    {
      if selectedImage.Some? {
        NextInRange(selectedImage.value, ImageCount);
        selectedImage := Some(WrapNext(selectedImage.value, ImageCount));
      }
    }

    method PrevImage()
      requires Valid()
      modifies this
      ensures Valid()
      ensures old(selectedImage).None? ==> selectedImage == None
      ensures old(selectedImage).Some? ==> selectedImage == Some(WrapPrevTernary(old(selectedImage).value, ImageCount) as nat)
    {
      if selectedImage.Some? {
        PrevInRange(selectedImage.value, ImageCount);
        selectedImage := Some(WrapPrevTernary(selectedImage.value, ImageCount) as nat);
      }
    }
  }
}

/** The product modal of `app/merch/page.tsx`. */
module MerchPage {
  import opened Common
  import opened Carousel

  datatype MerchProduct = MerchProduct(id: nat, name: string, price: string, imageUrls: seq<string>, description: string)

  /** The page's static catalogue: every product has two images. */
  const MerchData: seq<MerchProduct> := [
    MerchProduct(1, "Fest Hoodie", "₹899", ["/merch/2.png", "/merch/1.png"],
      "Stay warm and stylish with our premium fest hoodie."),
    MerchProduct(2, "Official T-Shirt", "₹449", ["/merch/5.png", "/merch/3.png"],
      "The official tee of the fest, made with comfortable, breathable cotton.")
  ]

  class ProductModal {
    var selectedMerch: Option<MerchProduct>
    var currentImageIndex: nat

    /** While a product is shown, the index points at one of its images. */
    ghost predicate Valid()
      reads this
    {
      selectedMerch.Some? ==> currentImageIndex < |selectedMerch.value.imageUrls|
    }

    constructor ()
      ensures Valid() && selectedMerch == None && currentImageIndex == 0
    {
      selectedMerch := None;
      currentImageIndex := 0;
    }

    /** `handleOpenModal(item)`; the page opens only products that have images. */
    method HandleOpenModal(item: MerchProduct)
      requires |item.imageUrls| > 0
      modifies this
      ensures Valid() && selectedMerch == Some(item) && currentImageIndex == 0
    {
      selectedMerch := Some(item);
      currentImageIndex := 0;
    }

    /** `handleCloseModal`: clears the selection but keeps the image index. */
    method HandleCloseModal()
      modifies this
      ensures Valid() && selectedMerch == None && currentImageIndex == old(currentImageIndex)
    {
      selectedMerch := None;
    }

    method ShowNextImage()
      requires Valid()
      modifies this
      ensures Valid() && selectedMerch == old(selectedMerch)
      ensures old(selectedMerch).None? ==> currentImageIndex == old(currentImageIndex)
      ensures old(selectedMerch).Some? ==>
        currentImageIndex == WrapNext(old(currentImageIndex), |old(selectedMerch).value.imageUrls|)
    {
      if selectedMerch.Some? {
        var n := |selectedMerch.value.imageUrls|;
        NextInRange(currentImageIndex, n);
        currentImageIndex := WrapNext(currentImageIndex, n);
      }
    }

    method ShowPrevImage()
      requires Valid()
      modifies this
      ensures Valid() && selectedMerch == old(selectedMerch)
      ensures old(selectedMerch).None? ==> currentImageIndex == old(currentImageIndex)
      ensures old(selectedMerch).Some? ==>
        currentImageIndex == WrapPrevMod(old(currentImageIndex), |old(selectedMerch).value.imageUrls|)
    {
      if selectedMerch.Some? {
        var n := |selectedMerch.value.imageUrls|;
        PrevInRange(currentImageIndex, n);
        currentImageIndex := WrapPrevMod(currentImageIndex, n) as nat;
      }
    }
  }

  /** Every product of the catalogue can be opened. */
  lemma CatalogueHasImages()
    ensures forall k :: 0 <= k < |MerchData| ==> |MerchData[k].imageUrls| == 2
  {
  }
}
