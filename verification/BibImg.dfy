/** The image types a bootc build accepts, the pipeline exports they need, and the upload loop that looks exports up
    by the position of the type. */
module BibImg {
  import opened Wrappers

  datatype ImageType = ImageType(export_: string, iso: bool, legacy: bool)

  const SUPPORTED: map<string, ImageType> := map[
    "ami" := ImageType("image", false, false),
    "qcow2" := ImageType("qcow2", false, false),
    "raw" := ImageType("image", false, false),
    "vmdk" := ImageType("vmdk", false, false),
    "vhd" := ImageType("vpc", false, false),
    "gce" := ImageType("gce", false, false),
    "ova" := ImageType("archive", false, false),
    "bootc-installer" := ImageType("bootiso", true, false),
    "anaconda-iso" := ImageType("bootiso", true, true),
    "iso" := ImageType("bootiso", true, true),
    "pxe-tar-xz" := ImageType("xz", false, false)
  ]

  datatype TypesError = EmptyRequest | Unsupported(name: string) | MixedISOAndDisk

  /** The entry of a type name; a map lookup of an unknown name gives the zero entry. */
  function TypeOf(name: string): ImageType {
    if name in SUPPORTED then SUPPORTED[name] else ImageType("", false, false)
  }

  function ExportOf(name: string): string {
    TypeOf(name).export_
  }

  predicate AllSupported(names: seq<string>) {
    forall i :: 0 <= i < |names| ==> names[i] in SUPPORTED
  }

  predicate OneKind(names: seq<string>) {
    forall i, j :: 0 <= i < |names| && 0 <= j < |names| ==> TypeOf(names[i]).iso == TypeOf(names[j]).iso
  }

  predicate Accepted(names: seq<string>) {
    names != [] && AllSupported(names) && OneKind(names)
  }

  predicate IsFirstUnsupported(names: seq<string>, i: nat, name: string) {
    i < |names| && names[i] == name && name !in SUPPORTED && AllSupported(names[..i])
  }

  method New(names: seq<string>) returns (r: Result<seq<string>, TypesError>)
    ensures r.Success? <==> Accepted(names)
    ensures r.Success? ==> r.value == names
    ensures r == Failure(EmptyRequest) <==> names == []
    ensures r.Failure? && r.error.Unsupported? ==> exists i :: IsFirstUnsupported(names, i, r.error.name)
    ensures r == Failure(MixedISOAndDisk) <==> AllSupported(names) && !OneKind(names)
  {
    if |names| == 0 {
      return Failure(EmptyRequest);
    }
    var isos, disks := 0, 0;
    for i := 0 to |names|
      invariant AllSupported(names[..i])
      invariant isos + disks == i && isos >= 0 && disks >= 0
      invariant isos > 0 <==> exists k :: 0 <= k < i && TypeOf(names[k]).iso
      invariant disks > 0 <==> exists k :: 0 <= k < i && !TypeOf(names[k]).iso
    {
      if names[i] !in SUPPORTED {
        assert IsFirstUnsupported(names, i, names[i]);
        return Failure(Unsupported(names[i]));
      }
      assert names[..i + 1] == names[..i] + [names[i]];
      if SUPPORTED[names[i]].iso {
        isos := isos + 1;
      } else {
        disks := disks + 1;
      }
    }
    assert names[..|names|] == names;
    if isos > 0 && disks > 0 {
      return Failure(MixedISOAndDisk);
    }
    assert TypeOf(names[0]).iso || !TypeOf(names[0]).iso;
    return Success(names);
  }

  /** The elements in order of first occurrence. */
  function Dedup(xs: seq<string>): seq<string> {
    if xs == [] then []
    else
      var before, last := Dedup(xs[..|xs| - 1]), xs[|xs| - 1];
      if last in before then before else before + [last]
  }

  function ExportsOf(names: seq<string>): (r: seq<string>)
    ensures |r| == |names|
  {
    seq(|names|, i requires 0 <= i < |names| => ExportOf(names[i]))
  }

  method Exports(names: seq<string>) returns (exports: seq<string>)
    ensures exports == Dedup(ExportsOf(names))
  {
    exports := [];
    ghost var all := ExportsOf(names);
    for i := 0 to |names|
      invariant exports == Dedup(all[..i])
    {
      assert all[..i + 1][..i] == all[..i];
      var e := ExportOf(names[i]);
      if e !in exports {
        exports := exports + [e];
      }
    }
    assert all[..|names|] == all;
  }

  method BuildsISO(names: seq<string>) returns (iso: bool)
    requires names != []
    ensures iso == TypeOf(names[0]).iso
    ensures Accepted(names) ==> forall i :: 0 <= i < |names| ==> iso == TypeOf(names[i]).iso
  {
    iso := TypeOf(names[0]).iso;
  }

  method Legacy(names: seq<string>) returns (legacy: bool)
    ensures legacy <==> exists i :: 0 <= i < |names| && TypeOf(names[i]).legacy
  {
    for i := 0 to |names|
      invariant forall k :: 0 <= k < i ==> !TypeOf(names[k]).legacy
    {
      if TypeOf(names[i]).legacy {
        return true;
      }
    }
    return false;
  }

  // ---- Looking an export up by the position of its type

  predicate Distinct(xs: seq<string>) {
    forall i, j :: 0 <= i < j < |xs| ==> xs[i] != xs[j]
  }

  lemma {:induction false} DedupKeepsElements(xs: seq<string>)
    ensures forall x :: x in Dedup(xs) <==> x in xs
    ensures |Dedup(xs)| <= |xs| && Distinct(Dedup(xs))
    decreases |xs|
  {
    if xs == [] {
    } else {
      var before, last := xs[..|xs| - 1], xs[|xs| - 1];
      DedupKeepsElements(before);
      assert xs == before + [last];
    }
  }

  lemma {:induction false} DedupOfDistinct(xs: seq<string>)
    ensures Distinct(xs) ==> Dedup(xs) == xs
    ensures !Distinct(xs) ==> |Dedup(xs)| < |xs|
    decreases |xs|
  {
    if xs == [] {
    } else {
      var before, last := xs[..|xs| - 1], xs[|xs| - 1];
      assert xs == before + [last];
      DedupOfDistinct(before);
      DedupKeepsElements(before);
      if last in before {
        var k :| 0 <= k < |before| && before[k] == last;
        assert xs[k] == xs[|xs| - 1];
      } else if Distinct(before) {
        assert forall i :: 0 <= i < |before| ==> before[i] != last;
        assert Distinct(xs);
      } else {
        var i, j :| 0 <= i < j < |before| && before[i] == before[j];
        assert xs[i] == xs[j];
      }
    }
  }

  /** What the elements of a prefix leave stays in front when the rest follows, and the rest adds only new elements. */
  lemma {:induction false} DedupPrefix(xs: seq<string>, n: nat)
    requires n <= |xs|
    ensures Dedup(xs[..n]) <= Dedup(xs)
    ensures forall i :: |Dedup(xs[..n])| <= i < |Dedup(xs)| ==> Dedup(xs)[i] !in xs[..n]
    decreases |xs|
  {
    if n == |xs| {
      assert xs[..n] == xs;
    } else {
      var before := xs[..|xs| - 1];
      assert before[..n] == xs[..n];
      DedupPrefix(before, n);
      DedupKeepsElements(before);
      if xs[|xs| - 1] in xs[..n] {
        assert xs[|xs| - 1] in before;
      }
    }
  }

  /** The lookup by position is right exactly when nothing up to the position repeats. */
  lemma PositionalLookupIff(xs: seq<string>, idx: nat)
    requires idx < |xs|
    ensures idx < |Dedup(xs)| && Dedup(xs)[idx] == xs[idx] <==> Distinct(xs[..idx + 1])
  {
    var front := xs[..idx + 1];
    DedupPrefix(xs, idx + 1);
    DedupOfDistinct(front);
    assert front[idx] == xs[idx];
    if !Distinct(front) && idx < |Dedup(xs)| {
      assert Dedup(xs)[idx] !in front;
    }
  }

  /** For every request and position, the export at the position is in range and is the export of the type there if and
      only if the exports of the types up to it are pairwise distinct. */
  lemma ExportLookupIff(names: seq<string>, idx: nat)
    requires Accepted(names) && idx < |names|
    ensures var exports := Dedup(ExportsOf(names));
      idx < |exports| && exports[idx] == ExportOf(names[idx]) <==> Distinct(ExportsOf(names)[..idx + 1])
  {
    PositionalLookupIff(ExportsOf(names), idx);
  }

  /** How the upload loop ends: with the directories uploaded from, with those before the upload of the idx-th type
      failed, or with an index out of range. */
  datatype Uploads =
    | Uploaded(dirs: seq<string>)
    | UploadFailed(idx: nat, dirs: seq<string>)
    | IndexOutOfRange(idx: nat)

  function ExportAt(exports: seq<string>, i: nat): string {
    if i < |exports| then exports[i] else ""
  }

  /** No cloud image before the n-th type lies beyond the exports. */
  predicate InRange(names: seq<string>, exports: seq<string>, n: nat)
    requires n <= |names|
  {
    forall i :: 0 <= i < n && names[i] == "ami" ==> i < |exports|
  }

  /** The exports at the positions of the cloud images up to n. */
  function AmiExports(names: seq<string>, exports: seq<string>, n: nat): seq<string>
    requires n <= |names|
  {
    if n == 0 then []
    else AmiExports(names, exports, n - 1) + (if names[n - 1] == "ami" then [ExportAt(exports, n - 1)] else [])
  }

  /** Every cloud image up to n finds its own export at its position. */
  predicate AmiInOrder(names: seq<string>, exports: seq<string>, n: nat)
    requires n <= |names|
  {
    forall i :: 0 <= i < n && names[i] == "ami" ==> i < |exports| && exports[i] == "image"
  }

  predicate AllImages(dirs: seq<string>) {
    forall k :: 0 <= k < |dirs| ==> dirs[k] == "image"
  }

  /** No upload of a cloud image before the n-th type fails. */
  predicate NoneFails(names: seq<string>, uploads: nat -> bool, n: nat)
    requires n <= |names|
  {
    forall i :: 0 <= i < n && names[i] == "ami" ==> uploads(i)
  }

  lemma OneMoreAmi(names: seq<string>, exports: seq<string>, dirs: seq<string>, idx: nat)
    requires idx < |names| && names[idx] == "ami" && idx < |exports|
    requires AllImages(dirs) <==> AmiInOrder(names, exports, idx)
    ensures AllImages(dirs + [exports[idx]]) <==> AmiInOrder(names, exports, idx + 1)
  {
    assert AllImages(dirs + [exports[idx]]) <==> AllImages(dirs) && exports[idx] == "image" by {
      assert (dirs + [exports[idx]])[|dirs|] == exports[idx];
      assert forall k :: 0 <= k < |dirs| ==> (dirs + [exports[idx]])[k] == dirs[k];
    }
  }

  /** The loop stops at the first position out of range and at the first upload that fails; uploads says which do not. */
  method UploadLoop(names: seq<string>, exports: seq<string>, uploads: nat -> bool) returns (r: Uploads)
    ensures r.IndexOutOfRange? ==>
      && |exports| <= r.idx < |names| && names[r.idx] == "ami"
      && InRange(names, exports, r.idx) && NoneFails(names, uploads, r.idx)
    ensures r.UploadFailed? ==>
      && r.idx < |names| && names[r.idx] == "ami" && !uploads(r.idx) && r.dirs == AmiExports(names, exports, r.idx)
      && InRange(names, exports, r.idx + 1) && NoneFails(names, uploads, r.idx)
    ensures r.Uploaded? <==> InRange(names, exports, |names|) && NoneFails(names, uploads, |names|)
    ensures r.Uploaded? ==> r.dirs == AmiExports(names, exports, |names|)
    ensures r.Uploaded? && AllImages(r.dirs) <==> AmiInOrder(names, exports, |names|) && NoneFails(names, uploads, |names|)
  {
    var dirs: seq<string> := [];
    for idx := 0 to |names|
      invariant dirs == AmiExports(names, exports, idx)
      invariant InRange(names, exports, idx) && NoneFails(names, uploads, idx)
      invariant AllImages(dirs) <==> AmiInOrder(names, exports, idx)
    {
      if names[idx] == "ami" {
        if idx >= |exports| {
          return IndexOutOfRange(idx);
        }
        if !uploads(idx) {
          return UploadFailed(idx, dirs);
        }
        OneMoreAmi(names, exports, dirs, idx);
        dirs := dirs + [exports[idx]];
      }
    }
    return Uploaded(dirs);
  }

  /** The directories are in the order of the images: the one at position i comes after those of the images before it. */
  lemma {:induction false} UploadsInOrder(names: seq<string>, exports: seq<string>, n: nat, i: nat)
    requires i < n <= |names| && names[i] == "ami"
    ensures AmiExports(names, exports, i) + [ExportAt(exports, i)] <= AmiExports(names, exports, n)
    ensures i < |exports| ==> AmiExports(names, exports, n)[|AmiExports(names, exports, i)|] == exports[i]
    decreases n
  {
    if n == i + 1 {
    } else {
      UploadsInOrder(names, exports, n - 1, i);
    }
  }

  /** There is one for each cloud image. */
  lemma {:induction false} UploadsCounted(names: seq<string>, exports: seq<string>, n: nat)
    requires n <= |names|
    ensures |AmiExports(names, exports, n)| == |set i | 0 <= i < n && names[i] == "ami"|
    decreases n
  {
    if n == 0 {
    } else {
      UploadsCounted(names, exports, n - 1);
      var before := set i | 0 <= i < n - 1 && names[i] == "ami";
      var all := set i | 0 <= i < n && names[i] == "ami";
      assert all == if names[n - 1] == "ami" then before + {n - 1} else before;
    }
  }

  /** Every cloud image is uploaded from its own export exactly when no export repeats up to its position. */
  lemma UploadsRightIff(names: seq<string>)
    requires Accepted(names)
    ensures AmiInOrder(names, Dedup(ExportsOf(names)), |names|) <==>
      forall i :: 0 <= i < |names| && names[i] == "ami" ==> Distinct(ExportsOf(names)[..i + 1])
  {
    forall i | 0 <= i < |names| && names[i] == "ami"
      ensures i < |Dedup(ExportsOf(names))| && Dedup(ExportsOf(names))[i] == "image" <==> Distinct(ExportsOf(names)[..i + 1])
    {
      ExportLookupIff(names, i);
    }
  }

  /** It fails for every request with a raw image, or another cloud image, before a cloud image: they share an export. */
  lemma SharedExportBreaksUpload(names: seq<string>, i: nat, j: nat)
    requires Accepted(names) && i < j < |names| && names[i] in {"raw", "ami"} && names[j] == "ami"
    ensures !AmiInOrder(names, Dedup(ExportsOf(names)), |names|)
  {
    UploadsRightIff(names);
    var front := ExportsOf(names)[..j + 1];
    assert front[i] == "image" && front[j] == "image";
  }

  /** One such request: its export list has one element, so the position of the cloud image is out of range. */
  lemma RawThenAmiIsOutOfRange(names: seq<string>)
    requires names == ["raw", "ami"]
    ensures Accepted(names) && |Dedup(ExportsOf(names))| < 2
  {
    var xs := ExportsOf(names);
    assert xs[0] == "image" && xs[1] == "image";
    DedupOfDistinct(xs);
  }
}
