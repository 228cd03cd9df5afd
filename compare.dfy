/**
 * The found-button record and the arithmetic of template matching in
 * src/auto_click/cores/compare.py. The matcher itself (OpenCV's
 * `matchTemplate` and `minMaxLoc`) is not modelled: its best score, the
 * location of that score and the template's size are inputs.
 */
module Compare {
  import opened Wrappers

  /** A pixel position (x, y) as OpenCV reports it. */
  datatype Point = Point(x: int, y: int)

  /** What the matcher reports: the best score, where it was found, and the template's width and height. */
  datatype MatchOutcome = MatchOutcome(maxVal: real, maxLoc: Point, width: nat, height: nat)

  /** The parts of the image configuration `find` reads. */
  datatype ImageConfig = ImageConfig(imageName: string, imagePath: string, confidence: real)

  /** `FoundPosition`: the button centre, which calibration moves, and the button's two names, which are frozen. */
  class FoundPosition {
    var buttonX: Option<int>
    var buttonY: Option<int>
    const foundButtonNameEn: Option<string>
    const foundButtonNameCn: Option<string>

    constructor(x: Option<int>, y: Option<int>, en: Option<string>, cn: Option<string>)
      ensures buttonX == x && buttonY == y && foundButtonNameEn == en && foundButtonNameCn == cn
    {
      buttonX, buttonY := x, y;
      foundButtonNameEn, foundButtonNameCn := en, cn;
    }

    /** `calibrate`: shifts the centre by the device's offset, but only when both coordinates are truthy. */
    method Calibrate(shiftX: int, shiftY: int)
      modifies this
      ensures (buttonX, buttonY) == Shifted(old(buttonX), old(buttonY), shiftX, shiftY)
    {
      if Truthy(buttonX) && Truthy(buttonY) {
        buttonX := Some(buttonX.value + shiftX);
        buttonY := Some(buttonY.value + shiftY);
      }
    }
  }

  /** Python truthiness of an optional int: None and 0 are false. */
  predicate Truthy(v: Option<int>) {
    v.Some? && v.value != 0
  }

  /** The coordinates after `calibrate`. */
  function Shifted(x: Option<int>, y: Option<int>, shiftX: int, shiftY: int): (Option<int>, Option<int>) {
    if Truthy(x) && Truthy(y) then (Some(x.value + shiftX), Some(y.value + shiftY)) else (x, y)
  }

  /** With both coordinates set and non-zero, each moves by exactly its shift. */
  lemma ShiftedMovesBoth(x: Option<int>, y: Option<int>, shiftX: int, shiftY: int)
    requires Truthy(x) && Truthy(y)
    ensures var (x', y') := Shifted(x, y, shiftX, shiftY);
      x'.Some? && y'.Some? && x'.value - x.value == shiftX && y'.value - y.value == shiftY
  {
  }

  /** With either coordinate None or 0, neither moves. */
  lemma ShiftedKeepsFalsy(x: Option<int>, y: Option<int>, shiftX: int, shiftY: int)
    requires !Truthy(x) || !Truthy(y)
    ensures Shifted(x, y, shiftX, shiftY) == (x, y)
  {
  }

  /** The pixel `find` reports for a hit: the template's top-left corner plus half its size, rounded down. */
  function Centre(loc: Point, width: nat, height: nat): Point {
    Point(loc.x + width / 2, loc.y + height / 2)
  }

  /** The reported pixel lies inside the matched template, at its middle to within half a pixel. */
  lemma CentreInside(loc: Point, width: nat, height: nat)
    requires width >= 1 && height >= 1
    ensures var c := Centre(loc, width, height);
      && loc.x <= c.x < loc.x + width && loc.y <= c.y < loc.y + height
      && width - 1 <= 2 * (c.x - loc.x) <= width
      && height - 1 <= 2 * (c.y - loc.y) <= height
  {
  }

  /**
   * `find`: a score strictly above the configured confidence is a hit,
   * reported at the template's centre and named after the image file's stem
   * and the image's configured name; anything else is an empty position.
   */
  method Find(cfg: ImageConfig, m: MatchOutcome) returns (pos: FoundPosition)
    ensures fresh(pos)
    ensures m.maxVal > cfg.confidence ==>
      && pos.buttonX == Some(Centre(m.maxLoc, m.width, m.height).x)
      && pos.buttonY == Some(Centre(m.maxLoc, m.width, m.height).y)
      && pos.foundButtonNameEn == Some(Stem(cfg.imagePath))
      && pos.foundButtonNameCn == Some(cfg.imageName)
    ensures m.maxVal <= cfg.confidence ==>
      pos.buttonX.None? && pos.buttonY.None? && pos.foundButtonNameEn.None? && pos.foundButtonNameCn.None?
  {
    if m.maxVal > cfg.confidence {
      var click := Centre(m.maxLoc, m.width, m.height);
      pos := new FoundPosition(Some(click.x), Some(click.y), Some(Stem(cfg.imagePath)), Some(cfg.imageName));
    } else {
      pos := new FoundPosition(None, None, None, None);
    }
  }

  // ---------------------------------------------------------------------
  // `Path(image_path).stem` for a POSIX path

  /** The index of the last `ch` in `s`. */
  function LastIndex(s: string, ch: char): (r: Option<nat>)
    ensures r.Some? ==> r.value < |s| && s[r.value] == ch && forall j :: r.value < j < |s| ==> s[j] != ch
    ensures r.None? ==> forall j :: 0 <= j < |s| ==> s[j] != ch
  {
    if s == [] then None
    else if s[|s| - 1] == ch then Some(|s| - 1)
    else LastIndex(s[..|s| - 1], ch)
  }

  /** The final component: what follows the last '/'. */
  function Name(path: string): (name: string)
    ensures |name| <= |path| && path[|path| - |name|..] == name
    ensures forall j :: 0 <= j < |name| ==> name[j] != '/'
    ensures |name| == |path| || path[|path| - |name| - 1] == '/'
  {
    match LastIndex(path, '/')
    case None => path
    case Some(i) => path[i + 1..]
  }

  /** The suffix of a name: from its last '.', unless that dot leads or ends the name. */
  function Suffix(name: string): string {
    match LastIndex(name, '.')
    case None => ""
    case Some(i) => if 0 < i < |name| - 1 then name[i..] else ""
  }

  /** The name without its suffix. */
  function Stem(path: string): string {
    var name := Name(path);
    name[..|name| - |Suffix(name)|]
  }

  /** The stem and the suffix make up the final component; the suffix is empty or one dot and a dot-free tail. */
  lemma StemSuffix(path: string)
    ensures Name(path) == Stem(path) + Suffix(Name(path))
    ensures forall j :: 0 <= j < |Stem(path)| ==> Stem(path)[j] != '/'
    ensures Suffix(Name(path)) == "" || (
      && |Suffix(Name(path))| >= 2 && Suffix(Name(path))[0] == '.'
      && |Stem(path)| >= 1
      && forall j :: 1 <= j < |Suffix(Name(path))| ==> Suffix(Name(path))[j] != '.')
    ensures forall i :: InteriorLastDot(Name(path), i) ==> Stem(path) == Name(path)[..i]
    ensures (forall i :: !InteriorLastDot(Name(path), i)) ==> Stem(path) == Name(path)
  {
    var name := Name(path);
    SuffixShape(name);
    SuffixAtLastDot(name);
    assert Stem(path) == name[..|name| - |Suffix(name)|];
  }

  /** Position i of a name holds its last '.', which neither leads nor ends the name. */
  predicate InteriorLastDot(name: string, i: int) {
    0 < i < |name| - 1 && name[i] == '.' && forall j :: i < j < |name| ==> name[j] != '.'
  }

  /** A name is its part before the suffix plus the suffix, which is empty or a dot and a dot-free tail after a non-empty part. */
  lemma SuffixShape(name: string)
    ensures |Suffix(name)| <= |name|
    ensures name == name[..|name| - |Suffix(name)|] + Suffix(name)
    ensures Suffix(name) == "" || (
      && |Suffix(name)| >= 2 && Suffix(name)[0] == '.'
      && |name| - |Suffix(name)| >= 1
      && forall j :: 1 <= j < |Suffix(name)| ==> Suffix(name)[j] != '.')
  {
    var suffix := Suffix(name);
    match LastIndex(name, '.')
    case None =>
    case Some(i) =>
      if 0 < i < |name| - 1 {
        assert suffix == name[i..];
        forall j | 1 <= j < |suffix| ensures suffix[j] != '.' {
          assert suffix[j] == name[i + j];
        }
      }
    assert name == name[..|name| - |suffix|] + name[|name| - |suffix|..];
  }

  /** The suffix is non-empty exactly when the name has an interior last dot, and then it starts there. */
  lemma SuffixAtLastDot(name: string)
    ensures Suffix(name) != "" <==> exists i :: InteriorLastDot(name, i)
    ensures forall i :: InteriorLastDot(name, i) ==> Suffix(name) == name[i..]
  {
    forall i | InteriorLastDot(name, i) ensures LastIndex(name, '.') == Some(i) {
    }
    match LastIndex(name, '.')
    case None =>
    case Some(i) =>
      if 0 < i < |name| - 1 {
        assert InteriorLastDot(name, i);
      }
  }
}
