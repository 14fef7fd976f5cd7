/** `postProcess` of captureData.py: after all weather runs, every sensor
    directory under `directory/logFileName` is cut to the smallest image
    count found and its images are renamed `000000.png`, `000001.png`, ...
    in sorted order. The file system is the map `folders`: weather folder
    → sensor folder → the image names in it. */
module PostProcess {
  import opened Text
  import opened Format
  import opened LexOrder

  /** One file-system call of the renumbering pass. */
  datatype FileOp =
    | Rename(from: string, to: string)  // `os.rename(imagePath, newFilePath)`
    | Remove(name: string)              // `os.remove(imagePath)`

  /** A directory's names after the call `op`. A rename onto an existing
      name replaces that file, as POSIX `rename` does. */
  function Step(dir: set<string>, op: FileOp): set<string>
  {
    match op
    case Rename(from, to) => dir - {from} + {to}
    case Remove(name) => dir - {name}
  }

  /** A directory's names after the calls `ops`, one after the other. */
  function Apply(dir: set<string>, ops: seq<FileOp>): set<string>
  {
    if ops == [] then dir else Step(Apply(dir, ops[..|ops| - 1]), ops[|ops| - 1])
  }

  lemma ApplySnoc(dir: set<string>, ops: seq<FileOp>, op: FileOp)
    ensures Apply(dir, ops + [op]) == Step(Apply(dir, ops), op)
  {
    assert (ops + [op])[..|ops|] == ops;
  }

  /** The calls the pass makes on one sensor directory whose sorted listing
      is `imageList`: the k-th image is renamed to `'%06d.png' % k` while
      `k < minImages` and removed after that. */
  function Plan(imageList: seq<string>, minImages: nat): (ops: seq<FileOp>)
    ensures |ops| == |imageList|
    ensures forall k :: 0 <= k < |ops| ==>
      ops[k] == if k < minImages then Rename(imageList[k], ImageName(k)) else Remove(imageList[k])
  {
    PlanUpTo(imageList, minImages, |imageList|)
  }

  /** The calls for the first `i` images of the listing. */
  function PlanUpTo(imageList: seq<string>, minImages: nat, i: nat): (ops: seq<FileOp>)
    requires i <= |imageList|
    ensures |ops| == i
    ensures forall k :: 0 <= k < i ==> ops[k] == PlanAt(imageList, minImages, k)
  {
    if i == 0 then [] else PlanUpTo(imageList, minImages, i - 1) + [PlanAt(imageList, minImages, i - 1)]
  }

  /** The call for the image at sorted position k. */
  function PlanAt(imageList: seq<string>, minImages: nat, k: nat): FileOp
    requires k < |imageList|
  {
    if k < minImages then Rename(imageList[k], ImageName(k)) else Remove(imageList[k])
  }

  /** The inner loop of the second pass over one sensor directory. Returns
      the calls it makes and what the directory holds afterwards. */
  method RenumberDir(names: set<string>, minImages: nat) returns (ops: seq<FileOp>, dir: set<string>)
    ensures ops == Plan(SortedNames(names), minImages)
    ensures dir == Apply(names, ops)
  {
    var imageList := ListSorted(names);
    ops, dir := [], names;
    var imageCounter := 0;
    for i := 0 to |imageList|
      invariant imageCounter == i
      invariant ops == PlanUpTo(imageList, minImages, i)
      invariant dir == Apply(names, ops)
    {
      var image := imageList[i];
      var newFileName := ImageName(imageCounter);
      ApplySnoc(names, ops, PlanAt(imageList, minImages, i));
      if imageCounter < minImages {
        ops := ops + [Rename(image, newFileName)];
        dir := dir - {image} + {newFileName};
      } else {
        ops := ops + [Remove(image)];
        dir := dir - {image};
      }
      imageCounter := imageCounter + 1;
    }
  }

  /** The images numbered below `n`. */
  function FirstImages(n: nat): set<string>
  {
    if n == 0 then {} else FirstImages(n - 1) + {ImageName(n - 1)}
  }

  /** Exactly the names `'%06d.png' % k` with `k < n`. */
  lemma {:induction false} FirstImagesMember(n: nat, name: string)
    ensures name in FirstImages(n) <==> exists k :: 0 <= k < n && name == ImageName(k)
  {
    if n > 0 {
      FirstImagesMember(n - 1, name);
      if name == ImageName(n - 1) {
        assert 0 <= n - 1 < n && name == ImageName(n - 1);
      } else if exists k :: 0 <= k < n && name == ImageName(k) {
        var k :| 0 <= k < n && name == ImageName(k);
        assert k != n - 1;
        assert 0 <= k < n - 1 && name == ImageName(k);
      }
    }
  }

  /** `n` renamed images are `n` different files. */
  lemma {:induction false} FirstImagesCount(n: nat)
    ensures |FirstImages(n)| == n
  {
    if n > 0 {
      FirstImagesCount(n - 1);
      assert ImageName(n - 1) !in FirstImages(n - 1) by {
        FirstImagesMember(n - 1, ImageName(n - 1));
        if ImageName(n - 1) in FirstImages(n - 1) {
          var k :| 0 <= k < n - 1 && ImageName(n - 1) == ImageName(k);
          ImageNameInjective(k, n - 1);
        }
      }
    }
  }

  /** The names listed in `xs`. */
  function Names(xs: seq<string>): set<string>
  {
    set x | x in xs
  }

  /** No name occurs twice in the listing. */
  predicate Distinct(xs: seq<string>)
  {
    forall i :: 0 <= i < |xs| ==> UniqueAt(xs, i)
  }

  predicate UniqueAt(xs: seq<string>, i: nat)
    requires i < |xs|
  {
    xs[i] !in xs[i + 1..]
  }

  /** No image is renamed onto a name that a later image of the listing
      still has. */
  predicate NoClobber(imageList: seq<string>)
  {
    forall j :: 0 <= j < |imageList| ==> NotClobbered(imageList, j)
  }

  /** The image at position j does not carry a name handed out before it. */
  predicate NotClobbered(imageList: seq<string>, j: nat)
    requires j < |imageList|
  {
    forall k :: 0 <= k < j ==> imageList[j] != ImageName(k)
  }

  function Min(a: nat, b: nat): nat
  {
    if a < b then a else b
  }

  /** Splitting off the head of the names not reached yet. */
  lemma NamesFrom(imageList: seq<string>, i: nat)
    requires Distinct(imageList) && i < |imageList|
    ensures Names(imageList[i..]) == {imageList[i]} + Names(imageList[i + 1..])
    ensures imageList[i] !in Names(imageList[i + 1..])
  {
    assert imageList[i..] == [imageList[i]] + imageList[i + 1..];
    assert UniqueAt(imageList, i);
  }

  /** The image at position i is not one of the names already handed out. */
  lemma NotYetRenamed(imageList: seq<string>, i: nat, n: nat)
    requires NoClobber(imageList) && i < |imageList| && n <= i
    ensures imageList[i] !in FirstImages(n)
  {
    FirstImagesMember(n, imageList[i]);
    assert NotClobbered(imageList, i);
  }

  /** Renaming or removing a file that is neither among the renamed names
      nor among the names still to come. */
  lemma StepHead(done: set<string>, name: string, rest: set<string>, op: FileOp, added: set<string>)
    requires name !in done && name !in rest
    requires (op.Rename? && op.from == name && added == {op.to}) || (op.Remove? && op.name == name && added == {})
    ensures Step(done + ({name} + rest), op) == done + added + rest
  {
  }

  /** One call of the pass: the image at sorted position i - 1, which is
      neither among the names handed out nor among the images still to
      come, is renamed to the next number or removed. */
  lemma PlanStep(imageList: seq<string>, minImages: nat, i: nat, rest: set<string>)
    requires 0 < i <= |imageList|
    requires imageList[i - 1] !in rest && imageList[i - 1] !in FirstImages(Min(i - 1, minImages))
    requires Apply(Names(imageList), PlanUpTo(imageList, minImages, i - 1))
          == FirstImages(Min(i - 1, minImages)) + ({imageList[i - 1]} + rest)
    ensures Apply(Names(imageList), PlanUpTo(imageList, minImages, i)) == FirstImages(Min(i, minImages)) + rest
  {
    var name := imageList[i - 1];
    var done := FirstImages(Min(i - 1, minImages));
    var op := PlanAt(imageList, minImages, i - 1);
    var prefix := PlanUpTo(imageList, minImages, i - 1);
    var added: set<string> := if i - 1 < minImages then {ImageName(i - 1)} else {};
    assert Apply(Names(imageList), PlanUpTo(imageList, minImages, i)) == Step(Apply(Names(imageList), prefix), op) by {
      assert PlanUpTo(imageList, minImages, i) == prefix + [op];
      ApplySnoc(Names(imageList), prefix, op);
    }
    assert FirstImages(Min(i, minImages)) == done + added by {
      if i - 1 < minImages {
        assert Min(i, minImages) == i && Min(i - 1, minImages) == i - 1;
        assert FirstImages(i) == FirstImages(i - 1) + {ImageName(i - 1)};
      } else {
        assert Min(i, minImages) == Min(i - 1, minImages);
      }
    }
    StepHead(done, name, rest, op, added);
  }

  /** After the first `i` calls: the renamed images, and the images the pass
      has not reached yet. */
  lemma {:induction false} PlanPrefix(imageList: seq<string>, minImages: nat, i: nat)
    requires Distinct(imageList) && NoClobber(imageList) && i <= |imageList|
    ensures Apply(Names(imageList), PlanUpTo(imageList, minImages, i))
         == FirstImages(Min(i, minImages)) + Names(imageList[i..])
  {
    if i == 0 {
      assert imageList[0..] == imageList;
    } else {
      var rest := Names(imageList[i..]);
      var name := imageList[i - 1];
      var done := FirstImages(Min(i - 1, minImages));
      assert Apply(Names(imageList), PlanUpTo(imageList, minImages, i - 1)) == done + ({name} + rest)
          && name !in rest by {
        PlanPrefix(imageList, minImages, i - 1);
        NamesFrom(imageList, i - 1);
      }
      assert name !in done by {
        NotYetRenamed(imageList, i - 1, Min(i - 1, minImages));
      }
      PlanStep(imageList, minImages, i, rest);
    }
  }

  /** The k-th call of the plan is the one for sorted position k. */
  lemma {:induction false} PlanIndex(imageList: seq<string>, minImages: nat, i: nat, k: nat)
    requires k < i <= |imageList|
    ensures PlanUpTo(imageList, minImages, i)[k] == PlanAt(imageList, minImages, k)
  {
    var prefix := PlanUpTo(imageList, minImages, i - 1);
    assert PlanUpTo(imageList, minImages, i) == prefix + [PlanAt(imageList, minImages, i - 1)];
    if k < i - 1 {
      assert prefix[k] == PlanAt(imageList, minImages, k) by {
        PlanIndex(imageList, minImages, i - 1, k);
      }
    }
  }

  /** The pass leaves a directory holding exactly the first
      `min(minImages, its count)` image names, provided no image is renamed
      onto a name that a later image still has. */
  lemma RenumberResult(imageList: seq<string>, minImages: nat)
    requires Distinct(imageList) && NoClobber(imageList)
    ensures Apply(Names(imageList), Plan(imageList, minImages)) == FirstImages(Min(|imageList|, minImages))
  {
    PlanPrefix(imageList, minImages, |imageList|);
    assert imageList[|imageList|..] == [];
  }

  /** A smaller leading digit makes a smaller number, whatever follows. */
  lemma MulMonotone(a: nat, b: nat, p: nat)
    requires a <= b
    ensures a * p <= b * p
  {
  }

  lemma LeadingDigitOrder(ds: nat, dt: nat, p: nat, a: nat, b: nat)
    requires ds < dt && a < p && b < p
    ensures ds * p + a < dt * p + b
  {
    assert (ds + 1) * p == ds * p + p;
    MulMonotone(ds + 1, dt, p);
  }

  /** Python's string order on two texts whose first characters agree. */
  lemma LessSameHead(s: string, t: string)
    requires |s| > 0 && |t| > 0 && s[0] == t[0]
    ensures Less(s, t) <==> Less(s[1..], t[1..])
  {
  }

  /** Digit strings of one length with different first digits: the first
      digit decides both the string order and the numeric order. */
  lemma DigitsOrderHead(s: string, t: string, u: string)
    requires |s| == |t| > 0 && AllDigits(s) && AllDigits(t) && s[0] != t[0]
    ensures Less(s + u, t + u) <==> DecimalValue(s) < DecimalValue(t)
  {
    var su, tu := s + u, t + u;
    assert su[0] == s[0] && tu[0] == t[0];
    var p: int := Pow10(|s| - 1);
    var ds: int, dt: int := DigitValue(s[0]), DigitValue(t[0]);
    var a: int, b: int := DecimalValue(s[1..]), DecimalValue(t[1..]);
    assert DecimalValue(s) == ds * p + a && DecimalValue(t) == dt * p + b by {
      DecimalValueFront(s);
      DecimalValueFront(t);
    }
    assert a < p && b < p by {
      DecimalValueBound(s[1..]);
      DecimalValueBound(t[1..]);
    }
    if ds < dt {
      assert Less(su, tu);
      LeadingDigitOrder(ds, dt, p, a, b);
    } else {
      assert !Less(su, tu);
      LeadingDigitOrder(dt, ds, p, b, a);
    }
  }

  /** On digit strings of one length followed by the same text, Python's
      string order is the order of the numbers they denote. */
  lemma {:induction false} DigitsOrder(s: string, t: string, u: string)
    requires |s| == |t| && AllDigits(s) && AllDigits(t)
    ensures Less(s + u, t + u) <==> DecimalValue(s) < DecimalValue(t)
  {
    if s == [] {
      assert s + u == u && t + u == u;
      LessIrreflexive(u);
    } else if s[0] != t[0] {
      DigitsOrderHead(s, t, u);
    } else {
      var su, tu := s + u, t + u;
      assert su[0] == s[0] && tu[0] == t[0];
      assert su[1..] == s[1..] + u && tu[1..] == t[1..] + u;
      assert Less(su, tu) <==> Less(su[1..], tu[1..]) by {
        LessSameHead(su, tu);
      }
      assert Less(s[1..] + u, t[1..] + u) <==> DecimalValue(s[1..]) < DecimalValue(t[1..]) by {
        DigitsOrder(s[1..], t[1..], u);
      }
      assert DecimalValue(s) == DigitValue(s[0]) * Pow10(|s| - 1) + DecimalValue(s[1..]) by {
        DecimalValueFront(s);
      }
      assert DecimalValue(t) == DigitValue(s[0]) * Pow10(|s| - 1) + DecimalValue(t[1..]) by {
        DecimalValueFront(t);
      }
    }
  }

  /** Image names of frames below one million sort in frame order. */
  lemma ImageNameOrder(a: nat, b: nat)
    requires a < 1000000 && b < 1000000
    ensures Less(ImageName(a), ImageName(b)) <==> a < b
  {
    ZeroPad6Width(a);
    ZeroPad6Width(b);
    DigitsOrder(ZeroPad6(a), ZeroPad6(b), ".png");
    ZeroPad6RoundTrip(a);
    ZeroPad6RoundTrip(b);
  }

  /** Frame numbers are not bounded: from one million on, `%06d` writes
      seven digits, and `sort()` puts frame 1000000 before frame 999999. */
  lemma LongFrameOrder()
    ensures Less(ImageName(1000000), ImageName(999999))
    ensures !Less(ImageName(999999), ImageName(1000000))
  {
  }

  /** `name` is the image name of frame `f`, a frame below a million. */
  ghost predicate NamesFrame(name: string, f: nat)
  {
    f < 1000000 && name == ImageName(f)
  }

  /** `name` is `'%06d.png' % frame` for some frame below one million. */
  ghost predicate FramedName(name: string)
  {
    exists f: nat :: NamesFrame(name, f)
  }

  /** Every name in the directory is an image name as the sensor
      callbacks write them. */
  ghost predicate FrameNamed(names: set<string>)
  {
    forall name :: name in names ==> FramedName(name)
  }

  /** Strictly increasing frame numbers: the one at position j is at
      least j. */
  lemma {:induction false} FramesAtLeastPosition(frames: seq<nat>, j: nat)
    requires j < |frames|
    requires forall k :: 0 < k < |frames| ==> frames[k - 1] < frames[k]
    ensures j <= frames[j]
  {
    if j > 0 {
      FramesAtLeastPosition(frames, j - 1);
    }
  }

  /** The frame numbers behind a listing of image names. */
  lemma ListingFrames(listing: seq<string>) returns (frames: seq<nat>)
    requires forall k :: 0 <= k < |listing| ==> FramedName(listing[k])
    ensures |frames| == |listing|
    ensures forall k :: 0 <= k < |frames| ==> NamesFrame(listing[k], frames[k])
  {
    frames := [];
    for k := 0 to |listing|
      invariant |frames| == k
      invariant forall j :: 0 <= j < k ==> NamesFrame(listing[j], frames[j])
    {
      assert FramedName(listing[k]);
      var f: nat :| NamesFrame(listing[k], f);
      frames := frames + [f];
    }
  }

  /** Along a sorted listing of image names the frame numbers increase. */
  lemma FramesIncrease(listing: seq<string>, frames: seq<nat>)
    requires StrictlySorted(listing) && |frames| == |listing|
    requires forall k :: 0 <= k < |frames| ==> NamesFrame(listing[k], frames[k])
    ensures forall k :: 0 < k < |frames| ==> frames[k - 1] < frames[k]
  {
    forall k | 0 < k < |frames| ensures frames[k - 1] < frames[k] {
      assert Less(listing[k - 1], listing[k]);
      assert NamesFrame(listing[k - 1], frames[k - 1]) && NamesFrame(listing[k], frames[k]);
      ImageNameOrder(frames[k - 1], frames[k]);
    }
  }

  /** Renaming a frame-named directory's images in sorted order never
      replaces an image that is still to be processed. */
  lemma FrameNamedNoClobber(names: set<string>)
    requires FrameNamed(names)
    ensures Distinct(SortedNames(names)) && NoClobber(SortedNames(names))
  {
    var listing := SortedNames(names);
    SortedNamesCorrect(names);
    SortedNamesDistinct(names);
    forall k | 0 <= k < |listing| ensures FramedName(listing[k]) {
      assert listing[k] in names;
    }
    var frames := ListingFrames(listing);
    FramesIncrease(listing, frames);
    forall j | 0 <= j < |listing| ensures NotClobbered(listing, j) {
      FramesAtLeastPosition(frames, j);
      forall k | 0 <= k < j ensures listing[j] != ImageName(k) {
        assert NamesFrame(listing[j], frames[j]);
        if listing[j] == ImageName(k) {
          ImageNameInjective(frames[j], k);
        }
      }
    }
  }

  /** A sorted listing never names a file twice. */
  lemma SortedNamesDistinct(names: set<string>)
    ensures Distinct(SortedNames(names))
  {
    var listing := SortedNames(names);
    SortedNamesCorrect(names);
    forall i | 0 <= i < |listing| ensures UniqueAt(listing, i) {
      forall j | i < j < |listing| ensures listing[j] != listing[i] {
        LessIrreflexive(listing[i]);
      }
    }
  }

  /** The sorted listing names exactly the directory's files. */
  lemma SortedNamesAsSet(names: set<string>)
    ensures Names(SortedNames(names)) == names
  {
    SortedNamesCorrect(names);
  }

  /** A directory of at least `minImages` images, where no rename of the
      sorted pass lands on a name still to be visited, ends up with exactly
      `000000.png` ... `'%06d.png' % (minImages - 1)`. FrameNamedNoClobber
      gives that condition for frame names below one million. */
  lemma FrameDirRenumbered(names: set<string>, minImages: nat)
    requires NoClobber(SortedNames(names)) && minImages <= |names|
    ensures Apply(names, Plan(SortedNames(names), minImages)) == FirstImages(minImages)
    ensures |Apply(names, Plan(SortedNames(names), minImages))| == minImages
  {
    SortedNamesDistinct(names);
    SortedNamesAsSet(names);
    RenumberResult(SortedNames(names), minImages);
    FirstImagesCount(minImages);
  }

  /** `n` is the image count of some sensor directory. */
  ghost predicate IsCount(tree: map<string, map<string, set<string>>>, n: nat)
  {
    exists folder, sensor :: folder in tree && sensor in tree[folder] && |tree[folder][sensor]| == n
  }

  ghost predicate HasSensorDir(tree: map<string, map<string, set<string>>>)
  {
    exists folder, sensor :: folder in tree && sensor in tree[folder]
  }

  /** `n` is the smallest image count over all sensor directories. */
  ghost predicate IsMinCount(tree: map<string, map<string, set<string>>>, n: nat)
  {
    && IsCount(tree, n)
    && forall folder, sensor :: folder in tree && sensor in tree[folder] ==> n <= |tree[folder][sensor]|
  }

  /** Every sensor directory of `sensors` has its count in `counts`. */
  ghost predicate AllListed(sensors: map<string, set<string>>, counts: seq<nat>)
  {
    forall sensor :: sensor in sensors ==> |sensors[sensor]| in counts
  }

  /** Python's `min` over a non-empty list. */
  function MinOf(xs: seq<nat>): (m: nat)
    requires xs != []
    ensures m in xs && forall k :: 0 <= k < |xs| ==> m <= xs[k]
  {
    if |xs| == 1 then xs[0]
    else
      var rest := MinOf(xs[1..]);
      assert forall k :: 1 <= k < |xs| ==> xs[k] == xs[1..][k - 1];
      if xs[0] <= rest then xs[0] else rest
  }

  /** The inner loop of the first pass: the image count of every sensor
      directory of one folder is appended. */
  method AppendCounts(tree: map<string, map<string, set<string>>>, folder: string, imageLengthList: seq<nat>)
    returns (counts: seq<nat>)
    requires folder in tree
    requires forall j :: 0 <= j < |imageLengthList| ==> IsCount(tree, imageLengthList[j])
    ensures imageLengthList <= counts
    ensures forall j :: 0 <= j < |counts| ==> IsCount(tree, counts[j])
    ensures AllListed(tree[folder], counts)
  {
    var sensors := tree[folder];
    counts := imageLengthList;
    var remaining := sensors.Keys;
    while remaining != {}
      invariant remaining <= sensors.Keys
      invariant imageLengthList <= counts
      invariant forall j :: 0 <= j < |counts| ==> IsCount(tree, counts[j])
      invariant forall sensor :: sensor in sensors && sensor !in remaining ==> |sensors[sensor]| in counts
      decreases |remaining|
    {
      var sensor :| sensor in remaining;
      var nImages := |sensors[sensor]|;
      assert IsCount(tree, nImages);
      counts := counts + [nImages];
      remaining := remaining - {sensor};
    }
  }

  /** The first pass and `min(imageLengthList)`. None when there is no
      sensor directory at all, where `min` of the empty list raises. */
  method MinImageCount(tree: map<string, map<string, set<string>>>) returns (minImages: Option<nat>)
    ensures minImages.None? <==> !HasSensorDir(tree)
    ensures minImages.Some? ==> IsMinCount(tree, minImages.value)
  {
    var imageLengthList: seq<nat> := [];
    var remaining := tree.Keys;
    while remaining != {}
      invariant remaining <= tree.Keys
      invariant forall j :: 0 <= j < |imageLengthList| ==> IsCount(tree, imageLengthList[j])
      invariant forall folder :: folder in tree && folder !in remaining ==> AllListed(tree[folder], imageLengthList)
      decreases |remaining|
    {
      var folder :| folder in remaining;
      var counts := AppendCounts(tree, folder, imageLengthList);
      forall other | other in tree && other !in remaining && other != folder
        ensures AllListed(tree[other], counts)
      {
        forall sensor | sensor in tree[other] ensures |tree[other][sensor]| in counts {
          assert |tree[other][sensor]| in imageLengthList;
          assert counts[..|imageLengthList|] == imageLengthList;
        }
      }
      imageLengthList := counts;
      remaining := remaining - {folder};
    }
    assert HasSensorDir(tree) ==> imageLengthList != [] by {
      if HasSensorDir(tree) {
        var folder, sensor :| folder in tree && sensor in tree[folder];
        assert AllListed(tree[folder], imageLengthList);
      }
    }
    if imageLengthList == [] {
      return None;
    }
    var m := MinOf(imageLengthList);
    assert IsCount(tree, imageLengthList[0]);
    forall folder, sensor | folder in tree && sensor in tree[folder] ensures m <= |tree[folder][sensor]| {
      assert AllListed(tree[folder], imageLengthList);
      var k :| 0 <= k < |imageLengthList| && imageLengthList[k] == |tree[folder][sensor]|;
    }
    return Some(m);
  }

  /** One sensor directory after the second pass. */
  ghost function RenumberedDir(names: set<string>, minImages: nat): set<string>
  {
    Apply(names, Plan(SortedNames(names), minImages))
  }

  /** One weather folder after the second pass. */
  ghost function RenumberedFolder(sensors: map<string, set<string>>, minImages: nat): map<string, set<string>>
  {
    map sensor | sensor in sensors :: RenumberedDir(sensors[sensor], minImages)
  }

  /** The whole tree after the second pass. */
  ghost function Renumbered(tree: map<string, map<string, set<string>>>, minImages: nat)
    : map<string, map<string, set<string>>>
  {
    map folder | folder in tree :: RenumberedFolder(tree[folder], minImages)
  }

  /** The second pass over the sensor directories of one folder. */
  method RenumberFolder(sensors: map<string, set<string>>, minImages: nat) returns (result: map<string, set<string>>)
    ensures result == RenumberedFolder(sensors, minImages)
  {
    result := sensors;
    var remaining := sensors.Keys;
    while remaining != {}
      invariant remaining <= sensors.Keys
      invariant result.Keys == sensors.Keys
      invariant forall sensor :: sensor in sensors && sensor in remaining ==> result[sensor] == sensors[sensor]
      invariant forall sensor :: sensor in sensors && sensor !in remaining ==>
        result[sensor] == RenumberedDir(sensors[sensor], minImages)
      decreases |remaining|
    {
      var sensor :| sensor in remaining;
      var ops, dir := RenumberDir(sensors[sensor], minImages);
      result := result[sensor := dir];
      remaining := remaining - {sensor};
    }
  }

  /** The second pass over every weather folder of the tree. */
  method RenumberTree(tree: map<string, map<string, set<string>>>, minImages: nat)
    returns (result: map<string, map<string, set<string>>>)
    ensures result == Renumbered(tree, minImages)
  {
    result := tree;
    var remaining := tree.Keys;
    while remaining != {}
      invariant remaining <= tree.Keys
      invariant result.Keys == tree.Keys
      invariant forall folder :: folder in tree && folder in remaining ==> result[folder] == tree[folder]
      invariant forall folder :: folder in tree && folder !in remaining ==>
        result[folder] == RenumberedFolder(tree[folder], minImages)
      decreases |remaining|
    {
      var folder :| folder in remaining;
      var sensors := RenumberFolder(tree[folder], minImages);
      result := result[folder := sensors];
      remaining := remaining - {folder};
    }
  }

  /** The directory `directory/logFileName` that `postProcess` works on. */
  class FileTree {
    /** Weather folder → sensor folder → the image names in it. */
    var folders: map<string, map<string, set<string>>>

    constructor (folders: map<string, map<string, set<string>>>)
      ensures this.folders == folders
    {
      this.folders := folders;
    }

    /** `postProcess`: the smallest image count, then every sensor
        directory renumbered. None, with nothing changed, when there is no
        sensor directory (`min` of an empty list raises). */
    method PostProcess() returns (minImages: Option<nat>)
      modifies this
      ensures minImages.None? <==> !HasSensorDir(old(folders))
      ensures minImages.None? ==> folders == old(folders)
      ensures minImages.Some? ==> IsMinCount(old(folders), minImages.value)
      ensures minImages.Some? ==> folders == Renumbered(old(folders), minImages.value)
    {
      var tree := folders;
      minImages := MinImageCount(tree);
      if minImages.None? {
        return;
      }
      folders := RenumberTree(tree, minImages.value);
    }
  }

  /** Unless a rename of the sorted pass lands on a name still to be
      visited, every sensor directory ends up holding exactly `minImages`
      files, `000000.png` up to `'%06d.png' % (minImages - 1)`. */
  lemma PostProcessedTree(tree: map<string, map<string, set<string>>>, minImages: nat,
                          folder: string, sensor: string)
    requires IsMinCount(tree, minImages)
    requires folder in tree && sensor in tree[folder] && NoClobber(SortedNames(tree[folder][sensor]))
    ensures folder in Renumbered(tree, minImages) && sensor in Renumbered(tree, minImages)[folder]
    ensures Renumbered(tree, minImages)[folder][sensor] == FirstImages(minImages)
    ensures |Renumbered(tree, minImages)[folder][sensor]| == minImages
  {
    FrameDirRenumbered(tree[folder][sensor], minImages);
  }

  /** Without the naming the callbacks guarantee, the pass can lose files:
      `0.png` sorts before `000000.png`, is renamed onto it, and the
      directory ends with one image where two were asked for. */
  lemma ClobberListing()
    ensures SortedNames({"0.png", "000000.png"}) == ["0.png", "000000.png"]
  {
    var names := {"0.png", "000000.png"};
    assert Less("0.png", "000000.png");
    assert IsLeast("0.png", names);
    SortedNamesHead("0.png", names);
    assert names - {"0.png"} == {"000000.png"};
    assert IsLeast("000000.png", {"000000.png"});
    SortedNamesHead("000000.png", {"000000.png"});
    assert {"000000.png"} - {"000000.png"} == {};
  }

  lemma ClobberExample()
    ensures RenumberedDir({"0.png", "000000.png"}, 2) == {ImageName(1)}
  {
    var names := {"0.png", "000000.png"};
    ClobberListing();
    assert ImageName(0) == "000000.png" by {
      assert Decimal(0) == "0";
      assert ZeroPad6(0) == "000000";
    }
    var first, second := Rename("0.png", ImageName(0)), Rename("000000.png", ImageName(1));
    assert PlanUpTo(["0.png", "000000.png"], 2, 1) == [first];
    assert Plan(["0.png", "000000.png"], 2) == [first] + [second];
    ApplySnoc(names, [], first);
    ApplySnoc(names, [first], second);
    assert Step(names, first) == {"000000.png"};
  }
}
