/** The gallery page's image list: 190 slots, of which slot 12 shows a
    named image, slots 13 to 64 take their path from a fixed remap list,
    slot 189 is a `.jpeg`, and every other slot follows the numbered
    `.jpg` pattern. */
module Gallery {
  import opened Text

  /** `/images/gallery/g (n).ext`. */
  function GalleryFile(n: nat, ext: string): string {
    "/images/gallery/g (" + NatToString(n) + ")." + ext
  }

  /** The remap list for slots 13 to 64, in slot order, written in eight
      rows. */
  const RemappedImages: seq<string> :=
    RemapRow1 + RemapRow2 + RemapRow3 + RemapRow4 + RemapRow5 + RemapRow6 + RemapRow7 + RemapRow8

  const RemapRow1: seq<string> := [
    "/images/gallery/g (14).JPG", "/images/gallery/g (15).JPG", "/images/gallery/g (16).JPG", "/images/gallery/g (17).JPG",
    "/images/gallery/g (18).JPG", "/images/gallery/g (19).JPG", "/images/gallery/g (20).JPG"
  ]

  const RemapRow2: seq<string> := [
    "/images/gallery/g (21).JPG", "/images/gallery/g (22).JPG", "/images/gallery/g (23).JPG", "/images/gallery/g (24).JPG",
    "/images/gallery/g (25).JPG", "/images/gallery/g (26).JPG"
  ]

  const RemapRow3: seq<string> := [
    "/images/gallery/g (27).JPG", "/images/gallery/g (28).JPG", "/images/gallery/g (29).JPG", "/images/gallery/g (30).JPG",
    "/images/gallery/g (31).JPG", "/images/gallery/g (32).JPG", "/images/gallery/g (33).JPG"
  ]

  const RemapRow4: seq<string> := [
    "/images/gallery/g (34).JPG", "/images/gallery/g (35).JPG", "/images/gallery/g (36).JPG", "/images/gallery/g (37).JPG",
    "/images/gallery/g (38).JPG", "/images/gallery/g (39).JPG"
  ]

  const RemapRow5: seq<string> := [
    "/images/gallery/g (40).JPG", "/images/gallery/g (41).JPG", "/images/gallery/g (42).JPG", "/images/gallery/g (43).JPG",
    "/images/gallery/g (44).JPG", "/images/gallery/g (45).JPG", "/images/gallery/g (46).JPG"
  ]

  const RemapRow6: seq<string> := [
    "/images/gallery/g (47).JPG", "/images/gallery/g (48).JPG", "/images/gallery/g (49).JPG", "/images/gallery/g (50).JPG",
    "/images/gallery/g (51).JPG", "/images/gallery/g (52).JPG"
  ]

  const RemapRow7: seq<string> := [
    "/images/gallery/g (53).JPG", "/images/gallery/g (54).JPG", "/images/gallery/g (55).JPG", "/images/gallery/g (56).JPG",
    "/images/gallery/g (57).JPG", "/images/gallery/g (58).JPG", "/images/gallery/g (59).JPG"
  ]

  const RemapRow8: seq<string> := [
    "/images/gallery/g (60).JPG", "/images/gallery/g (61).JPG", "/images/gallery/g (62).JPG", "/images/gallery/g (63).JPG",
    "/images/gallery/g (64).JPG", "/images/gallery/g (65).JPG"
  ]

  const SlotCount: nat := 190

  /** The image of slot `i` (the `Array.from` callback). */
  function GallerySlot(i: nat): string
    requires i < SlotCount
  {
    if i == 12 then "/images/gallery/one.JPG"
    else if 13 <= i <= 64 then RemappedImages[i - 13]
    else if i == 189 then "/images/gallery/g (190).jpeg"
    else GalleryFile(i + 1, "jpg")
  }

  /** `galleryImages`. */
  function GalleryImages(): (r: seq<string>)
    ensures |r| == 190
    ensures forall i :: 0 <= i < |r| ==> r[i] == GallerySlot(i)
  {
    seq(SlotCount, i requires 0 <= i < SlotCount => GallerySlot(i))
  }

  /** Every remap entry is the numbered image of its slot with an upper-case
      extension, and the list covers exactly slots 13 to 64. */
  lemma RemappedIsNumbered()
    ensures |RemappedImages| == 64 - 13 + 1
    ensures forall k :: 0 <= k < |RemappedImages| ==> RemappedImages[k] == GalleryFile(k + 14, "JPG")
  {
    var p4 := RemapRow1 + RemapRow2 + RemapRow3 + RemapRow4;
    assert |p4| == 26 && NumberedFrom(p4, 14) by { FirstRowsNumbered(); }
    var p5 := p4 + RemapRow5;
    assert |p5| == 33 && NumberedFrom(p5, 14) by {
      Row5IsNumbered();
      NumberedAppend(p4, RemapRow5, 14);
    }
    var p6 := p5 + RemapRow6;
    assert |p6| == 39 && NumberedFrom(p6, 14) by {
      Row6IsNumbered();
      NumberedAppend(p5, RemapRow6, 14);
    }
    var p7 := p6 + RemapRow7;
    assert |p7| == 46 && NumberedFrom(p7, 14) by {
      Row7IsNumbered();
      NumberedAppend(p6, RemapRow7, 14);
    }
    assert |RemappedImages| == 52 && NumberedFrom(RemappedImages, 14) by {
      Row8IsNumbered();
      NumberedAppend(p7, RemapRow8, 14);
    }
    NumberedFiles(RemappedImages, 14);
  }

  /** The first four rows hold images 14 to 39. */
  lemma FirstRowsNumbered()
    ensures var p4 := RemapRow1 + RemapRow2 + RemapRow3 + RemapRow4;
            |p4| == 26 && NumberedFrom(p4, 14)
  {
    var p2 := RemapRow1 + RemapRow2;
    assert |p2| == 13 && NumberedFrom(p2, 14) by {
      Row1IsNumbered();
      Row2IsNumbered();
      NumberedAppend(RemapRow1, RemapRow2, 14);
    }
    var p3 := p2 + RemapRow3;
    assert |p3| == 20 && NumberedFrom(p3, 14) by {
      Row3IsNumbered();
      NumberedAppend(p2, RemapRow3, 14);
    }
    var p4 := p3 + RemapRow4;
    assert |p4| == 26 && NumberedFrom(p4, 14) by {
      Row4IsNumbered();
      NumberedAppend(p3, RemapRow4, 14);
    }
  }

  /** Two rows numbered one after the other make one numbered row. */
  lemma NumberedAppend(a: seq<string>, b: seq<string>, first: nat)
    requires 10 <= first && first + |a| + |b| <= 100
    requires NumberedFrom(a, first) && NumberedFrom(b, first + |a|)
    ensures NumberedFrom(a + b, first)
  {
    forall k | 0 <= k < |a + b|
      ensures (a + b)[k] == "/images/gallery/g (" + TwoDigits(first + k) + ").JPG"
    {
      if k >= |a| {
        assert (a + b)[k] == b[k - |a|];
      }
    }
  }

  /** A numbered row lists the gallery files from `first` on. */
  lemma NumberedFiles(row: seq<string>, first: nat)
    requires 10 <= first && first + |row| <= 100
    requires NumberedFrom(row, first)
    ensures forall k :: 0 <= k < |row| ==> row[k] == GalleryFile(k + first, "JPG")
  {
    forall k | 0 <= k < |row| ensures row[k] == GalleryFile(k + first, "JPG") {
      TwoDigitFile(k + first);
    }
  }

  /** The two decimal digits of `n`. */
  function TwoDigits(n: nat): string
    requires 10 <= n <= 99
  {
    [DigitChar(n / 10), DigitChar(n % 10)]
  }

  /** A row of remap entries numbered from `first` on. */
  predicate NumberedFrom(row: seq<string>, first: nat)
    requires 10 <= first && first + |row| <= 100
  {
    forall k :: 0 <= k < |row| ==> row[k] == "/images/gallery/g (" + TwoDigits(first + k) + ").JPG"
  }

  /** The file name of a two-digit image number. */
  lemma TwoDigitFile(n: nat)
    requires 10 <= n <= 99
    ensures GalleryFile(n, "JPG") == "/images/gallery/g (" + TwoDigits(n) + ").JPG"
  {
    assert NatToString(n / 10) == [DigitChar(n / 10)];
  }

  /** Each row of the remap list holds the numbered images from its first
      number on. */
  lemma Row1IsNumbered()
    ensures |RemapRow1| == 7 && NumberedFrom(RemapRow1, 14)
  {
    assert RemapRow1[0] == "/images/gallery/g (" + TwoDigits(14) + ").JPG";
    assert RemapRow1[1] == "/images/gallery/g (" + TwoDigits(15) + ").JPG";
    assert RemapRow1[2] == "/images/gallery/g (" + TwoDigits(16) + ").JPG";
    assert RemapRow1[3] == "/images/gallery/g (" + TwoDigits(17) + ").JPG";
    assert RemapRow1[4] == "/images/gallery/g (" + TwoDigits(18) + ").JPG";
    assert RemapRow1[5] == "/images/gallery/g (" + TwoDigits(19) + ").JPG";
    assert RemapRow1[6] == "/images/gallery/g (" + TwoDigits(20) + ").JPG";
  }

  lemma Row2IsNumbered()
    ensures |RemapRow2| == 6 && NumberedFrom(RemapRow2, 21)
  {
    assert RemapRow2[0] == "/images/gallery/g (" + TwoDigits(21) + ").JPG";
    assert RemapRow2[1] == "/images/gallery/g (" + TwoDigits(22) + ").JPG";
    assert RemapRow2[2] == "/images/gallery/g (" + TwoDigits(23) + ").JPG";
    assert RemapRow2[3] == "/images/gallery/g (" + TwoDigits(24) + ").JPG";
    assert RemapRow2[4] == "/images/gallery/g (" + TwoDigits(25) + ").JPG";
    assert RemapRow2[5] == "/images/gallery/g (" + TwoDigits(26) + ").JPG";
  }

  lemma Row3IsNumbered()
    ensures |RemapRow3| == 7 && NumberedFrom(RemapRow3, 27)
  {
    assert RemapRow3[0] == "/images/gallery/g (" + TwoDigits(27) + ").JPG";
    assert RemapRow3[1] == "/images/gallery/g (" + TwoDigits(28) + ").JPG";
    assert RemapRow3[2] == "/images/gallery/g (" + TwoDigits(29) + ").JPG";
    assert RemapRow3[3] == "/images/gallery/g (" + TwoDigits(30) + ").JPG";
    assert RemapRow3[4] == "/images/gallery/g (" + TwoDigits(31) + ").JPG";
    assert RemapRow3[5] == "/images/gallery/g (" + TwoDigits(32) + ").JPG";
    assert RemapRow3[6] == "/images/gallery/g (" + TwoDigits(33) + ").JPG";
  }

  lemma Row4IsNumbered()
    ensures |RemapRow4| == 6 && NumberedFrom(RemapRow4, 34)
  {
    assert RemapRow4[0] == "/images/gallery/g (" + TwoDigits(34) + ").JPG";
    assert RemapRow4[1] == "/images/gallery/g (" + TwoDigits(35) + ").JPG";
    assert RemapRow4[2] == "/images/gallery/g (" + TwoDigits(36) + ").JPG";
    assert RemapRow4[3] == "/images/gallery/g (" + TwoDigits(37) + ").JPG";
    assert RemapRow4[4] == "/images/gallery/g (" + TwoDigits(38) + ").JPG";
    assert RemapRow4[5] == "/images/gallery/g (" + TwoDigits(39) + ").JPG";
  }

  lemma Row5IsNumbered()
    ensures |RemapRow5| == 7 && NumberedFrom(RemapRow5, 40)
  {
    assert RemapRow5[0] == "/images/gallery/g (" + TwoDigits(40) + ").JPG";
    assert RemapRow5[1] == "/images/gallery/g (" + TwoDigits(41) + ").JPG";
    assert RemapRow5[2] == "/images/gallery/g (" + TwoDigits(42) + ").JPG";
    assert RemapRow5[3] == "/images/gallery/g (" + TwoDigits(43) + ").JPG";
    assert RemapRow5[4] == "/images/gallery/g (" + TwoDigits(44) + ").JPG";
    assert RemapRow5[5] == "/images/gallery/g (" + TwoDigits(45) + ").JPG";
    assert RemapRow5[6] == "/images/gallery/g (" + TwoDigits(46) + ").JPG";
  }

  lemma Row6IsNumbered()
    ensures |RemapRow6| == 6 && NumberedFrom(RemapRow6, 47)
  {
    assert RemapRow6[0] == "/images/gallery/g (" + TwoDigits(47) + ").JPG";
    assert RemapRow6[1] == "/images/gallery/g (" + TwoDigits(48) + ").JPG";
    assert RemapRow6[2] == "/images/gallery/g (" + TwoDigits(49) + ").JPG";
    assert RemapRow6[3] == "/images/gallery/g (" + TwoDigits(50) + ").JPG";
    assert RemapRow6[4] == "/images/gallery/g (" + TwoDigits(51) + ").JPG";
    assert RemapRow6[5] == "/images/gallery/g (" + TwoDigits(52) + ").JPG";
  }

  lemma Row7IsNumbered()
    ensures |RemapRow7| == 7 && NumberedFrom(RemapRow7, 53)
  {
    assert RemapRow7[0] == "/images/gallery/g (" + TwoDigits(53) + ").JPG";
    assert RemapRow7[1] == "/images/gallery/g (" + TwoDigits(54) + ").JPG";
    assert RemapRow7[2] == "/images/gallery/g (" + TwoDigits(55) + ").JPG";
    assert RemapRow7[3] == "/images/gallery/g (" + TwoDigits(56) + ").JPG";
    assert RemapRow7[4] == "/images/gallery/g (" + TwoDigits(57) + ").JPG";
    assert RemapRow7[5] == "/images/gallery/g (" + TwoDigits(58) + ").JPG";
    assert RemapRow7[6] == "/images/gallery/g (" + TwoDigits(59) + ").JPG";
  }

  lemma Row8IsNumbered()
    ensures |RemapRow8| == 6 && NumberedFrom(RemapRow8, 60)
  {
    assert RemapRow8[0] == "/images/gallery/g (" + TwoDigits(60) + ").JPG";
    assert RemapRow8[1] == "/images/gallery/g (" + TwoDigits(61) + ").JPG";
    assert RemapRow8[2] == "/images/gallery/g (" + TwoDigits(62) + ").JPG";
    assert RemapRow8[3] == "/images/gallery/g (" + TwoDigits(63) + ").JPG";
    assert RemapRow8[4] == "/images/gallery/g (" + TwoDigits(64) + ").JPG";
    assert RemapRow8[5] == "/images/gallery/g (" + TwoDigits(65) + ").JPG";
  }

  /** Where each slot's image comes from: the named image at 12, the
      numbered `.JPG` at 13 to 64, the numbered `.jpeg` at 189, and the
      numbered `.jpg` everywhere else; slot `i` shows image number `i + 1`. */
  lemma SlotMapping(i: nat)
    requires i < SlotCount
    ensures i == 12 ==> GallerySlot(i) == "/images/gallery/one.JPG"
    ensures 13 <= i <= 64 ==> GallerySlot(i) == GalleryFile(i + 1, "JPG")
    ensures i == 189 ==> GallerySlot(i) == GalleryFile(190, "jpeg")
    ensures i != 12 && !(13 <= i <= 64) && i != 189 ==> GallerySlot(i) == GalleryFile(i + 1, "jpg")
  {
    if 13 <= i <= 64 {
      RemappedIsNumbered();
    }
    if i == 189 {
      assert NatToString(190) == NatToString(19) + [DigitChar(0)] == "190" by {
        assert NatToString(19) == NatToString(1) + [DigitChar(9)] == "19";
      }
      assert "/images/gallery/g (" + "190" + ")." + "jpeg" == "/images/gallery/g (190).jpeg";
    }
  }

  /** The remap changes nothing but the extension's letter case: the
      remapped path differs from the one the numbered rule would give, and
      agrees with it once lower-cased. */
  lemma RemapOnlyChangesCase(i: nat)
    requires 13 <= i <= 64
    ensures GallerySlot(i) != GalleryFile(i + 1, "jpg")
    ensures Lower(GallerySlot(i)) == Lower(GalleryFile(i + 1, "jpg"))
  {
    assert GallerySlot(i) == GalleryFile(i + 1, "JPG") by { SlotMapping(i); }
    var stem := "/images/gallery/g (" + NatToString(i + 1) + ").";
    assert GalleryFile(i + 1, "JPG") == stem + "JPG";
    assert GalleryFile(i + 1, "jpg") == stem + "jpg";
    ExtensionCase(stem);
  }

  /** Two paths that differ only in the case of a `JPG` extension. */
  lemma ExtensionCase(stem: string)
    ensures stem + "JPG" != stem + "jpg"
    ensures Lower(stem + "JPG") == Lower(stem + "jpg")
  {
    assert (stem + "JPG")[|stem|] != (stem + "jpg")[|stem|];
    LowerAppend(stem, "JPG");
    LowerAppend(stem, "jpg");
    assert Lower("JPG") == "jpg" == Lower("jpg");
  }
}
