/**
 * The orientation decision of orient.go: each sampled 32 x 32 tile is
 * classified by the network into one of four rotations with a margin-style
 * confidence, confident tiles vote, and the winning rotation is undone.
 * Deskewing by the white-lines estimator is modelled on dimensions only.
 */
module Orientation {
  import opened Wrappers
  import opened Images
  import Sampler

  /** Side of the square tiles the network accepts. */
  const TileSize: nat := 32
  /** Number of tiles sampled from a page for the vote. */
  const NumSamples: nat := 200
  /** A tile votes only when its confidence is strictly above this. */
  const VoteThreshold: real := 0.5

  /** Rotation classes: the page is turned by 0, 90, 180 or 270 degrees. */
  const Angle0: nat := 0
  const Angle90: nat := 1
  const Angle180: nat := 2
  const Angle270: nat := 3

  datatype Error =
    | LoadFailed        // the network could not be loaded
    | NotTileSized      // a tile is not 32 x 32
    | NetworkNotLoaded  // the network was never loaded or has been closed
    | InferenceFailed   // the network returned a non-zero status
    | TooSmall          // the page gave no tiles to classify

  /** The network's four raw scores, one per rotation class. */
  type Scores = s: seq<real> | |s| == 4 witness [0.0, 0.0, 0.0, 0.0]

  /** One run of the network: status 0 on success, and the scores it wrote. */
  datatype Inference = Inference(status: int, scores: Scores)

  /** A tile's predicted rotation class and the confidence of the prediction. */
  datatype Classification = Classification(orientation: nat, confidence: real)

  // ------------------------------------------------------------------ scores

  function Max(a: real, b: real): real
  {
    if a < b then b else a
  }

  /** The running maximum after the scan: the largest score, or 0 when none is positive. */
  function Top(s: seq<real>): (r: real)
    ensures r >= 0.0
  {
    if s == [] then 0.0 else Max(Top(s[..|s| - 1]), s[|s| - 1])
  }

  /** Where the running maximum last rose (strictly), 0 when it never did. */
  function TopIndex(s: seq<real>): (r: nat)
    ensures s == [] || r < |s|
  {
    if s == [] then 0
    else if s[|s| - 1] > Top(s[..|s| - 1]) then |s| - 1
    else TopIndex(s[..|s| - 1])
  }

  /** The running maximum just before its last rise, 0 when it never rose. */
  function RunnerUp(s: seq<real>): real
  {
    if s == [] then 0.0
    else if s[|s| - 1] > Top(s[..|s| - 1]) then Top(s[..|s| - 1])
    else RunnerUp(s[..|s| - 1])
  }

  /** Predicted class: the first index holding the highest score, 0 when no score is positive. */
  function TileClass(s: Scores): (r: nat)
    ensures r < 4
  {
    TopIndex(s)
  }

  /** Confidence: the highest score minus the running maximum just before it. */
  function TileConfidence(s: Scores): real
  {
    Top(s) - RunnerUp(s)
  }

  lemma {:induction false} TopBounds(s: seq<real>)
    ensures forall i | 0 <= i < |s| :: s[i] <= Top(s)
    ensures Top(s) > 0.0 ==> exists i | 0 <= i < |s| :: s[i] == Top(s)
  {
    if s != [] {
      TopBounds(s[..|s| - 1]);
      assert forall i | 0 <= i < |s| - 1 :: s[i] == s[..|s| - 1][i];
    }
  }

  /**
   * The class holds the highest score and every earlier score is strictly
   * lower; when no score is positive the class is 0.
   */
  lemma {:induction false} TopIndexIsFirstMax(s: seq<real>)
    ensures Top(s) > 0.0 ==> TopIndex(s) < |s| && s[TopIndex(s)] == Top(s)
    ensures forall i | 0 <= i < TopIndex(s) :: s[i] < Top(s)
    ensures Top(s) == 0.0 ==> TopIndex(s) == 0
  {
    if s != [] {
      var init := s[..|s| - 1];
      TopIndexIsFirstMax(init);
      TopBounds(init);
      assert forall i | 0 <= i < |init| :: s[i] == init[i];
    }
  }

  /** The runner-up is the running maximum of the scores before the class. */
  lemma {:induction false} RunnerUpIsPrefixTop(s: seq<real>)
    ensures TopIndex(s) <= |s|
    ensures RunnerUp(s) == Top(s[..TopIndex(s)])
  {
    if s != [] {
      var init := s[..|s| - 1];
      RunnerUpIsPrefixTop(init);
      if s[|s| - 1] <= Top(init) {
        assert s[..TopIndex(s)] == init[..TopIndex(init)];
      }
    }
  }

  lemma {:induction false} TopMono(s: seq<real>, n: nat)
    requires n <= |s|
    ensures Top(s[..n]) <= Top(s)
  {
    if n < |s| {
      TopMono(s[..|s| - 1], n);
      assert s[..|s| - 1][..n] == s[..n];
    } else {
      assert s[..n] == s;
    }
  }

  /**
   * Confidence lies in [0, highest score]. It is the highest score minus
   * either 0 or one of the scores before the class, and never more than the
   * gap to any score before the class: scores after the class are ignored.
   */
  lemma ConfidenceBounds(s: Scores)
    ensures 0.0 <= TileConfidence(s) <= Top(s)
    ensures forall i | 0 <= i < TileClass(s) :: TileConfidence(s) <= Top(s) - s[i]
    ensures TileConfidence(s) == Top(s) ||
      exists i | 0 <= i < TileClass(s) :: TileConfidence(s) == Top(s) - s[i]
  {
    var c := TileClass(s);
    RunnerUpIsPrefixTop(s);
    TopMono(s, c);
    var before := s[..c];
    TopBounds(before);
    assert forall i | 0 <= i < c :: s[i] == before[i];
  }

  /**
   * When no score is negative, as for the network's normalised outputs, the
   * confidence is at least the gap between the highest score and some other
   * class's score, and so at least the gap to the second-highest score.
   */
  lemma ConfidenceAtLeastSecondGap(s: Scores)
    requires forall i | 0 <= i < 4 :: s[i] >= 0.0
    ensures exists j | 0 <= j < 4 && j != TileClass(s) :: TileConfidence(s) >= Top(s) - s[j]
  {
    ConfidenceBounds(s);
    var c := TileClass(s);
    if TileConfidence(s) == Top(s) {
      var j := if c == 0 then 1 else 0;
      assert TileConfidence(s) >= Top(s) - s[j];
    } else {
      var i :| 0 <= i < c && TileConfidence(s) == Top(s) - s[i];
      assert i != c;
    }
  }

  /** If no score is positive the tile is class 0 with confidence 0. */
  lemma NoPositiveScore(s: Scores)
    requires forall i | 0 <= i < 4 :: s[i] <= 0.0
    ensures TileClass(s) == 0 && TileConfidence(s) == 0.0
  {
    TopBounds(s);
    TopIndexIsFirstMax(s);
    RunnerUpIsPrefixTop(s);
    assert s[..0] == [];
  }

  /**
   * The confidence is not the gap between the two highest scores: for scores
   * 0.05, 0.6, 0.35, 0 the class is 1 and the confidence 0.55, while the gap
   * to the second-highest score is only 0.25.
   */
  lemma ConfidenceIsNotSecondGap()
    ensures var s: Scores := [0.05, 0.6, 0.35, 0.0];
      TileClass(s) == 1 && TileConfidence(s) == 0.55 && s[1] - s[2] == 0.25
  {
    var s: Scores := [0.05, 0.6, 0.35, 0.0];
    var s1, s2, s3 := [0.05], [0.05, 0.6], [0.05, 0.6, 0.35];
    assert s[..3] == s3 && s3[..2] == s2 && s2[..1] == s1 && s1[..0] == [];
    assert Top(s1) == 0.05 && TopIndex(s1) == 0 && RunnerUp(s1) == 0.0;
    assert Top(s2) == 0.6 && TopIndex(s2) == 1 && RunnerUp(s2) == 0.05;
    assert Top(s3) == 0.6 && TopIndex(s3) == 1 && RunnerUp(s3) == 0.05;
  }

  // ---------------------------------------------------------------- the net

  /** The network as seen by one tile: the tile's size, whether it is loaded, and what it outputs. */
  function Classify(tile: Image, loaded: bool, infer: Image -> Inference): (r: Result<Classification, Error>)
    ensures r.Success? <==> tile.width == TileSize && tile.height == TileSize && loaded && infer(tile).status == 0
    ensures r.Success? ==> r.value.orientation < 4 && 0.0 <= r.value.confidence <= Top(infer(tile).scores)
  {
    if tile.width != TileSize || tile.height != TileSize then Failure(NotTileSized)
    else if !loaded then Failure(NetworkNotLoaded)
    else
      var out := infer(tile);
      if out.status != 0 then Failure(InferenceFailed)
      else
        ConfidenceBounds(out.scores);
        Success(Classification(TileClass(out.scores), TileConfidence(out.scores)))
  }

  /** A view with padded rows is copied into a dense buffer before it goes to the network. */
  function Densify(tile: Image): (r: Image)
    ensures IsDense(r) && r.width == tile.width && r.height == tile.height
    ensures r.format == tile.format && r.raster == tile.raster
    ensures IsDense(tile) ==> r == tile
  {
    if IsDense(tile) then tile else Clone(tile)
  }

  /**
   * The vote counts of the first tiles, four buckets, or the error of the
   * first tile that could not be classified.
   */
  function Tally(tiles: seq<Image>, loaded: bool, infer: Image -> Inference): (r: Result<seq<nat>, Error>)
    ensures r.Success? ==> |r.value| == 4
  {
    if tiles == [] then Success([0, 0, 0, 0])
    else
      match Tally(tiles[..|tiles| - 1], loaded, infer)
      case Failure(e) => Failure(e)
      case Success(counts) =>
        match Classify(Densify(tiles[|tiles| - 1]), loaded, infer)
        case Failure(e) => Failure(e)
        case Success(c) => Success(Counted(counts, c))
  }

  /** One classified tile's vote: a confident tile adds one to its class. */
  function Counted(counts: seq<nat>, c: Classification): (r: seq<nat>)
    requires c.orientation < |counts|
  {
    if c.confidence > VoteThreshold then counts[c.orientation := counts[c.orientation] + 1] else counts
  }

  /** Unfolds the tally by its last tile. */
  lemma TallyStep(tiles: seq<Image>, loaded: bool, infer: Image -> Inference)
    requires tiles != [] && Tally(tiles[..|tiles| - 1], loaded, infer).Success?
    requires Classify(Densify(tiles[|tiles| - 1]), loaded, infer).Success?
    ensures Tally(tiles, loaded, infer) ==
      Success(Counted(Tally(tiles[..|tiles| - 1], loaded, infer).value, Classify(Densify(tiles[|tiles| - 1]), loaded, infer).value))
  {
  }

  /** The lowest index with the largest count, 0 when every count is 0. */
  function Winner(counts: seq<nat>): (r: nat)
    ensures counts == [] || r < |counts|
  {
    if counts == [] then 0
    else if counts[|counts| - 1] > Best(counts[..|counts| - 1]) then |counts| - 1
    else Winner(counts[..|counts| - 1])
  }

  /** The largest count, 0 for no counts. */
  function Best(counts: seq<nat>): nat
  {
    if counts == [] then 0
    else if counts[|counts| - 1] > Best(counts[..|counts| - 1]) then counts[|counts| - 1]
    else Best(counts[..|counts| - 1])
  }

  /** The page's class: the winner of the vote over the tiles, or why there is none. */
  function Vote(tiles: seq<Image>, loaded: bool, infer: Image -> Inference): (r: Result<nat, Error>)
    ensures tiles == [] <==> r == Failure(TooSmall)
    ensures r.Success? ==> r.value < 4
  {
    TallyNeverTooSmall(tiles, loaded, infer);
    if tiles == [] then Failure(TooSmall)
    else
      match Tally(tiles, loaded, infer)
      case Failure(e) => Failure(e)
      case Success(counts) => Success(Winner(counts))
  }

  /** The tally only fails with a classification error, never with TooSmall. */
  lemma {:induction false} TallyNeverTooSmall(tiles: seq<Image>, loaded: bool, infer: Image -> Inference)
    ensures Tally(tiles, loaded, infer) != Failure(TooSmall)
  {
    if tiles != [] {
      TallyNeverTooSmall(tiles[..|tiles| - 1], loaded, infer);
    }
  }

  function Total(counts: seq<nat>): nat
  {
    if counts == [] then 0 else Total(counts[..|counts| - 1]) + counts[|counts| - 1]
  }

  lemma {:induction false} TotalBump(counts: seq<nat>, k: nat)
    requires k < |counts|
    ensures Total(counts[k := counts[k] + 1]) == Total(counts) + 1
  {
    var last := |counts| - 1;
    assert counts[k := counts[k] + 1][..last] == if k < last then counts[..last][k := counts[k] + 1] else counts[..last];
    if k < last {
      TotalBump(counts[..last], k);
    }
  }

  /** Every tile adds at most one vote. */
  lemma {:induction false} TallyBound(tiles: seq<Image>, loaded: bool, infer: Image -> Inference)
    requires Tally(tiles, loaded, infer).Success?
    ensures Total(Tally(tiles, loaded, infer).value) <= |tiles|
  {
    if tiles != [] {
      var init := tiles[..|tiles| - 1];
      assert Tally(init, loaded, infer).Success?;
      TallyBound(init, loaded, infer);
      var c := Classify(Densify(tiles[|tiles| - 1]), loaded, infer).value;
      TallyStep(tiles, loaded, infer);
      if c.confidence > VoteThreshold {
        TotalBump(Tally(init, loaded, infer).value, c.orientation);
      }
    } else {
      TotalZero();
    }
  }

  lemma TotalZero()
    ensures Total([0, 0, 0, 0]) == 0
  {
    var z1, z2, z3, z4: seq<nat> := [0], [0, 0], [0, 0, 0], [0, 0, 0, 0];
    assert z4[..3] == z3 && z3[..2] == z2 && z2[..1] == z1 && z1[..0] == [];
  }

  /**
   * The tally fails exactly when some tile cannot be classified, and then
   * with the error of the first such tile.
   */
  lemma {:induction false} TallyFailure(tiles: seq<Image>, loaded: bool, infer: Image -> Inference)
    ensures Tally(tiles, loaded, infer).Success? <==>
      forall i | 0 <= i < |tiles| :: Classify(Densify(tiles[i]), loaded, infer).Success?
    ensures Tally(tiles, loaded, infer).Failure? ==>
      exists i | 0 <= i < |tiles| ::
        && Classify(Densify(tiles[i]), loaded, infer) == Failure(Tally(tiles, loaded, infer).error)
        && forall j | 0 <= j < i :: Classify(Densify(tiles[j]), loaded, infer).Success?
  {
    if tiles != [] {
      var init := tiles[..|tiles| - 1];
      TallyFailure(init, loaded, infer);
      assert forall i | 0 <= i < |init| :: tiles[i] == init[i];
    }
  }

  /** Once a prefix of the tiles fails, the tally of all of them fails the same way. */
  lemma {:induction false} TallyStops(tiles: seq<Image>, n: nat, loaded: bool, infer: Image -> Inference)
    requires n <= |tiles| && Tally(tiles[..n], loaded, infer).Failure?
    ensures Tally(tiles, loaded, infer) == Tally(tiles[..n], loaded, infer)
  {
    if n == |tiles| {
      assert tiles[..n] == tiles;
    } else {
      var init := tiles[..|tiles| - 1];
      assert init[..n] == tiles[..n];
      TallyStops(init, n, loaded, infer);
    }
  }

  /** The tile is classified as k with a confidence above the vote threshold. */
  predicate VotesFor(tile: Image, loaded: bool, infer: Image -> Inference, k: nat)
  {
    var c := Classify(Densify(tile), loaded, infer);
    c.Success? && c.value.orientation == k && c.value.confidence > VoteThreshold
  }

  /** The number of tiles that vote for class k. */
  function Votes(tiles: seq<Image>, loaded: bool, infer: Image -> Inference, k: nat): nat
  {
    if tiles == [] then 0
    else Votes(tiles[..|tiles| - 1], loaded, infer, k) + if VotesFor(tiles[|tiles| - 1], loaded, infer, k) then 1 else 0
  }

  /** Each bucket of a successful tally counts exactly the tiles that vote for its class. */
  lemma {:induction false} TallyCounts(tiles: seq<Image>, loaded: bool, infer: Image -> Inference)
    requires Tally(tiles, loaded, infer).Success?
    ensures forall k | 0 <= k < 4 :: Tally(tiles, loaded, infer).value[k] == Votes(tiles, loaded, infer, k)
  {
    if tiles != [] {
      var init := tiles[..|tiles| - 1];
      TallyCounts(init, loaded, infer);
      TallyStep(tiles, loaded, infer);
    }
  }

  /** The winner holds the largest count and every earlier count is strictly smaller. */
  lemma {:induction false} WinnerIsFirstBest(counts: seq<nat>)
    ensures forall i | 0 <= i < |counts| :: counts[i] <= Best(counts)
    ensures counts != [] && Best(counts) > 0 ==> counts[Winner(counts)] == Best(counts)
    ensures forall i | 0 <= i < Winner(counts) :: counts[i] < Best(counts)
    ensures Best(counts) == 0 ==> Winner(counts) == 0
  {
    if counts != [] {
      var init := counts[..|counts| - 1];
      WinnerIsFirstBest(init);
      assert forall i | 0 <= i < |init| :: counts[i] == init[i];
    }
  }

  /** When no tile is confident enough to vote, the page is class 0. */
  lemma {:induction false} NoConfidentTile(tiles: seq<Image>, loaded: bool, infer: Image -> Inference)
    requires forall i | 0 <= i < |tiles| ::
      var c := Classify(Densify(tiles[i]), loaded, infer); c.Success? && c.value.confidence <= VoteThreshold
    ensures Tally(tiles, loaded, infer) == Success([0, 0, 0, 0])
    ensures tiles != [] ==> Vote(tiles, loaded, infer) == Success(Angle0)
  {
    if tiles != [] {
      var init := tiles[..|tiles| - 1];
      assert forall i | 0 <= i < |init| :: tiles[i] == init[i];
      NoConfidentTile(init, loaded, infer);
      TallyStep(tiles, loaded, infer);
      WinnerIsFirstBest([0, 0, 0, 0]);
    }
  }

  /** When every tile confidently says class k, the page is class k. */
  lemma {:induction false} UnanimousTiles(tiles: seq<Image>, loaded: bool, infer: Image -> Inference, k: nat)
    requires k < 4
    requires forall i | 0 <= i < |tiles| ::
      var c := Classify(Densify(tiles[i]), loaded, infer);
      c.Success? && c.value.orientation == k && c.value.confidence > VoteThreshold
    ensures Tally(tiles, loaded, infer) == Success([0, 0, 0, 0][k := |tiles|])
    ensures tiles != [] ==> Vote(tiles, loaded, infer) == Success(k)
  {
    if tiles != [] {
      var init := tiles[..|tiles| - 1];
      assert forall i | 0 <= i < |init| :: tiles[i] == init[i];
      UnanimousTiles(init, loaded, infer, k);
      var c := Classify(Densify(tiles[|tiles| - 1]), loaded, infer);
      assert c.Success? && c.value.orientation == k && c.value.confidence > VoteThreshold;
      TallyStep(tiles, loaded, infer);
      var before: seq<nat> := [0, 0, 0, 0][k := |init|];
      assert Counted(before, c.value) == [0, 0, 0, 0][k := |tiles|];
      SoleWinner(k, |tiles|);
    } else {
      var zero: seq<nat> := [0, 0, 0, 0];
      assert zero[k := 0] == zero;
    }
  }

  /** Counts that are zero except at k, where they are positive, elect k. */
  lemma SoleWinner(k: nat, n: nat)
    requires k < 4 && n > 0
    ensures Winner([0, 0, 0, 0][k := n]) == k
  {
    var counts: seq<nat> := [0, 0, 0, 0][k := n];
    WinnerIsFirstBest(counts);
    assert counts[k] == n;
    assert forall i | 0 <= i < 4 && i != k :: counts[i] == 0;
  }

  // --------------------------------------------------------------- rotations

  /** The turn, in degrees, that undoes a detected class. */
  function UndoDegrees(c: nat): real
    requires c < 4
  {
    if c == Angle90 then -90.0
    else if c == Angle270 then 90.0
    else if c == Angle180 then 180.0
    else 0.0
  }

  /** The upright page for a detected class: the image itself, or a rotated copy in a new buffer. */
  function Upright(img: Image, c: nat): (r: Image)
    requires c < 4
    ensures c == Angle0 ==> r == img
    ensures c != Angle0 ==> r.raster == Turned(img.raster, UndoDegrees(c)) && IsDense(r) && r.format == img.format
    ensures c == Angle90 || c == Angle270 ==> r.width == img.height && r.height == img.width
    ensures c == Angle0 || c == Angle180 ==> r.width == img.width && r.height == img.height
  {
    if c == Angle0 then img
    else if c == Angle90 then Rotate(img, NewImage(img.height, img.width, img.format), -90.0)
    else if c == Angle270 then Rotate(img, NewImage(img.height, img.width, img.format), 90.0)
    else Rotate(img, NewImage(img.width, img.height, img.format), 180.0)
  }

  /** The turn that undoes class c brings the page's rotation of 90 * c degrees to a whole number of turns. */
  lemma UndoCancelsRotation(c: nat)
    requires c < 4
    ensures var total := 90.0 * c as real + UndoDegrees(c); total == 0.0 || total == 360.0
    ensures (UndoDegrees(c) == 90.0 || UndoDegrees(c) == -90.0) <==> c == Angle90 || c == Angle270
  {
  }

  // -------------------------------------------------------------- deskewing

  /** Settings of the white-lines skew estimator. */
  datatype WhiteLinesParams = WhiteLinesParams(
    minDeltaDegrees: real,
    maxDeltaDegrees: real,
    stepDegrees: real,
    include90Degrees: bool,
    maxResolution: nat)

  /**
   * The defaults: skew searched in +-2.5 degrees by 0.1 degree steps, quarter
   * turns included, working at no more than 1000 px.
   */
  function NewWhiteLinesParams(): (p: WhiteLinesParams)
    ensures p.minDeltaDegrees == -p.maxDeltaDegrees < 0.0
    ensures p.maxDeltaDegrees - p.minDeltaDegrees == 50.0 * p.stepDegrees
    ensures p.include90Degrees && p.maxResolution == 1000
  {
    WhiteLinesParams(-2.5, 2.5, 0.1, true, 1000)
  }

  /** What the skew estimator is given: the image itself when it is dense and gray, otherwise a dense gray copy. */
  function EstimatorInput(img: Image): (r: Image)
    ensures IsDense(r) && r.format == Gray && r.width == img.width && r.height == img.height
    ensures IsDense(img) && img.format == Gray ==> r == img
  {
    if !IsDense(img) || img.format != Gray then ToGray(img) else img
  }

  /**
   * Deskews a page: the estimator (the white-lines method, a parameter here)
   * measures the skew in degrees on a dense gray copy, and the page is turned
   * back by that angle into a new buffer, with width and height exchanged
   * when the skew is beyond 45 degrees. A skew of exactly 0 returns the page.
   */
  function Straighten(img: Image, params: Option<WhiteLinesParams>,
                      estimate: (Image, WhiteLinesParams) -> real): (r: Image)
    ensures r == img || (IsDense(r) && r.format == img.format && r.raster.Turned? && r.raster.src == img.raster)
    ensures (r.width, r.height) == (img.width, img.height) || (r.width, r.height) == (img.height, img.width)
  {
    var p := if params.None? then NewWhiteLinesParams() else params.value;
    var angle := estimate(EstimatorInput(img), p);
    if angle == 0.0 then img
    else if angle > 45.0 || angle < -45.0 then Rotate(img, NewImage(img.height, img.width, img.format), -angle)
    else Rotate(img, NewImage(img.width, img.height, img.format), -angle)
  }

  /**
   * Straightening returns the page itself for a zero skew; otherwise it turns
   * the page by minus the skew into a dense buffer, exchanging width and
   * height exactly when the skew exceeds 45 degrees either way. Without
   * settings the defaults are used.
   */
  lemma StraightenShape(img: Image, params: Option<WhiteLinesParams>, estimate: (Image, WhiteLinesParams) -> real)
    ensures var p := if params.None? then NewWhiteLinesParams() else params.value;
      var angle := estimate(EstimatorInput(img), p);
      var r := Straighten(img, params, estimate);
      && (angle == 0.0 ==> r == img)
      && (angle != 0.0 ==>
            && r.raster == Turned(img.raster, -angle) && IsDense(r) && r.format == img.format
            && if angle > 45.0 || angle < -45.0
               then r.width == img.height && r.height == img.width
               else r.width == img.width && r.height == img.height)
  {
  }

  // ------------------------------------------------------------------ Orient

  /** A loaded orientation network; Close releases it. */
  class Orient {
    var loaded: bool
    const infer: Image -> Inference

    constructor(infer: Image -> Inference)
      ensures loaded && this.infer == infer
    {
      loaded := true;
      this.infer := infer;
    }

    /** Releases the network; later classifications fail. */
    method Close()
      modifies this
      ensures !loaded
    {
      loaded := false;
    }

    /**
     * Classifies one tile: only 32 x 32 tiles are accepted, the network must
     * be loaded and must succeed; the class is where the running maximum of
     * the four scores last rose and the confidence is the rise.
     */
    method TileOrientation(tile: Image) returns (r: Result<Classification, Error>)
      ensures r == Classify(tile, loaded, infer)
      ensures r.Success? ==> r.value.orientation < 4 && r.value.confidence >= 0.0
    {
      if tile.width != TileSize || tile.height != TileSize {
        return Failure(NotTileSized);
      }
      if !loaded {
        return Failure(NetworkNotLoaded);
      }
      var out := infer(tile);
      if out.status != 0 {
        return Failure(InferenceFailed);
      }
      var s := out.scores;
      var vmax: real := 0.0;
      var vmax2: real := 0.0;
      var orientation: nat := 0;
      for i := 0 to 4
        invariant vmax == Top(s[..i]) && vmax2 == RunnerUp(s[..i]) && orientation == TopIndex(s[..i])
      {
        assert s[..i + 1][..i] == s[..i];
        if s[i] > vmax {
          vmax2 := vmax;
          vmax := s[i];
          orientation := i;
        }
      }
      assert s[..4] == s;
      ConfidenceBounds(s);
      return Success(Classification(orientation, vmax - vmax2));
    }

    /** Classifies every tile and tallies the confident ones, stopping at the first error. */
    method VoteOnTiles(tiles: seq<Image>) returns (r: Result<nat, Error>)
      ensures r == Vote(tiles, loaded, infer)
    {
      if |tiles| == 0 {
        return Failure(TooSmall);
      }
      var angleCount := new nat[4](_ => 0);
      assert angleCount[..] == [0, 0, 0, 0];
      for i := 0 to |tiles|
        invariant Tally(tiles[..i], loaded, infer) == Success(angleCount[..])
      {
        assert tiles[..i + 1][..i] == tiles[..i];
        var denseTile := tiles[i];
        if !IsDense(tiles[i]) {
          denseTile := Clone(tiles[i]);
        }
        var c := TileOrientation(denseTile);
        if c.Failure? {
          assert Tally(tiles[..i + 1], loaded, infer) == Failure(c.error);
          TallyStops(tiles, i + 1, loaded, infer);
          return Failure(c.error);
        }
        if c.value.confidence > VoteThreshold {
          angleCount[c.value.orientation] := angleCount[c.value.orientation] + 1;
        }
      }
      assert tiles[..|tiles|] == tiles;
      var maxCount := 0;
      var bestOrient := 0;
      for i := 0 to 4
        invariant maxCount == Best(angleCount[..i]) && bestOrient == Winner(angleCount[..i])
      {
        assert angleCount[..i + 1][..i] == angleCount[..i];
        if angleCount[i] > maxCount {
          maxCount := angleCount[i];
          bestOrient := i;
        }
      }
      assert angleCount[..4] == angleCount[..];
      return Success(bestOrient);
    }

    /** The page's rotation class: 200 tiles of 32 x 32 are sampled and vote. */
    method GetImageOrientation(img: Image, perplexity: Image -> real, draw: Sampler.Draw) returns (r: Result<nat, Error>)
      ensures r == Vote(PageTiles(img, perplexity, draw), loaded, infer)
    {
      var samples := Sampler.SplitImage(img, NumSamples, TileSize, perplexity, draw);
      r := VoteOnTiles(samples);
    }

    /** Turns the page upright: the detected rotation is undone, or the classification error returned. */
    method MakeUpright(img: Image, perplexity: Image -> real, draw: Sampler.Draw) returns (r: Result<Image, Error>)
      ensures match Vote(PageTiles(img, perplexity, draw), loaded, infer)
        case Failure(e) => r == Failure(e)
        case Success(c) => c < 4 && r == Success(Upright(img, c))
    {
      var orient := GetImageOrientation(img, perplexity, draw);
      if orient.Failure? {
        return Failure(orient.error);
      }
      r := Success(Upright(img, orient.value));
    }

    /** Deskews the page, then turns it upright. */
    method StraightenAndMakeUpright(img: Image, params: Option<WhiteLinesParams>,
                                    estimate: (Image, WhiteLinesParams) -> real,
                                    perplexity: Image -> real, draw: Sampler.Draw)
      returns (r: Result<Image, Error>)
      ensures var straight := Straighten(img, params, estimate);
        match Vote(PageTiles(straight, perplexity, draw), loaded, infer)
        case Failure(e) => r == Failure(e)
        case Success(c) => c < 4 && r == Success(Upright(straight, c))
    {
      r := MakeUpright(Straighten(img, params, estimate), perplexity, draw);
    }
  }

  /** The tiles a page is judged by: 200 samples of 32 x 32. */
  function PageTiles(img: Image, perplexity: Image -> real, draw: Sampler.Draw): seq<Image>
  {
    Sampler.Split(img, NumSamples, TileSize, perplexity, draw)
  }

  /**
   * Loads the network. Loading is outside the model: `loads` says whether it
   * succeeded. On success the network is loaded and ready.
   */
  method NewOrient(loads: bool, infer: Image -> Inference) returns (r: Result<Orient, Error>)
    ensures r.Failure? <==> !loads
    ensures r.Failure? ==> r.error == LoadFailed
    ensures r.Success? ==> fresh(r.value) && r.value.loaded && r.value.infer == infer
  {
    if !loads {
      return Failure(LoadFailed);
    }
    var o := new Orient(infer);
    return Success(o);
  }

  /** A closed network rejects every tile that would otherwise reach it. */
  lemma ClosedRejects(tile: Image, infer: Image -> Inference)
    requires tile.width == TileSize && tile.height == TileSize
    ensures Classify(tile, false, infer) == Failure(NetworkNotLoaded)
    ensures Classify(tile, true, infer).Success? <==> infer(tile).status == 0
  {
  }

  /** Every tile the sampler returns reaches the network: the size check never rejects it. */
  lemma SampledTilesFit(img: Image, perplexity: Image -> real, draw: Sampler.Draw, loaded: bool, infer: Image -> Inference)
    ensures var tiles := PageTiles(img, perplexity, draw);
      forall k | 0 <= k < |tiles| ::
        Classify(Densify(tiles[k]), loaded, infer).Success? <==> loaded && infer(Densify(tiles[k])).status == 0
  {
    Sampler.SplitShape(img, NumSamples, TileSize, perplexity, draw);
  }

  /**
   * Orienting a page fails with TooSmall exactly when the page, after
   * normalisation, has no room for a tile grid, or the grid is empty.
   */
  lemma PageTooSmall(img: Image, perplexity: Image -> real, draw: Sampler.Draw, loaded: bool, infer: Image -> Inference)
    ensures var page := Sampler.Normalize(img);
      var plan := Sampler.Plan(page.width, page.height, TileSize);
      Vote(PageTiles(img, perplexity, draw), loaded, infer) == Failure(TooSmall) <==>
        plan.None? || plan.value.nx == 0 || plan.value.ny == 0
  {
    Sampler.SplitShape(img, NumSamples, TileSize, perplexity, draw);
  }

  /** With the network closed, tiles of the right size fail at the first one. */
  lemma {:induction false} ClosedTally(tiles: seq<Image>, infer: Image -> Inference)
    requires forall k | 0 <= k < |tiles| :: tiles[k].width == TileSize && tiles[k].height == TileSize
    ensures tiles != [] ==> Tally(tiles, false, infer) == Failure(NetworkNotLoaded)
  {
    if |tiles| > 1 {
      ClosedTally(tiles[..|tiles| - 1], infer);
    }
  }

  /**
   * After Close, orienting any page fails: with TooSmall when the page gives
   * no tiles, otherwise with NetworkNotLoaded, since every sampled tile is
   * 32 x 32.
   */
  lemma ClosedVoteFails(img: Image, perplexity: Image -> real, draw: Sampler.Draw, infer: Image -> Inference)
    ensures var tiles := PageTiles(img, perplexity, draw);
      Vote(tiles, false, infer) == Failure(if tiles == [] then TooSmall else NetworkNotLoaded)
  {
    Sampler.SplitShape(img, NumSamples, TileSize, perplexity, draw);
    ClosedTally(PageTiles(img, perplexity, draw), infer);
  }
}
