/** One frame of the trigger pipeline on values: which keys the fingertips of the
    detected hands touch, in the order a JavaScript `Set` keeps them, and which of those
    keys fire given the keys already held. */
module TouchScan {
  import opened Wrappers
  import opened KeyZones

  /** Landmark indices of the index and middle fingertips in the 21-point hand model. */
  const IndexTip: nat := 8
  const MiddleTip: nat := 12

  /** One detected hand: its landmark list. */
  type Hand = seq<Point>

  /** Every hand has the two fingertip landmarks the scan reads. */
  predicate WellFormedHands(hands: seq<Hand>) {
    forall i :: 0 <= i < |hands| ==> |hands[i]| > MiddleTip
  }

  /** Landmark `p` in canvas pixels; the frame scales by the canvas itself, no fallback. */
  function PixelX(p: Point, c: Canvas): real { p.x * c.width as real }
  function PixelY(p: Point, c: Canvas): real { p.y * c.height as real }

  /** Whether fingertip `p` touches key `k`. */
  predicate TipTouches(p: Point, c: Canvas, k: int)
    requires IsKey(k)
  {
    CheckKeyCollision(PixelX(p, c), PixelY(p, c), k, Some(c))
  }

  /** Reference definition: key `k` is touched in the frame when the index or the middle
      fingertip of some hand touches it. */
  predicate Touches(hands: seq<Hand>, c: Canvas, k: int)
    requires WellFormedHands(hands)
  {
    IsKey(k) &&
    exists i :: 0 <= i < |hands| &&
      (TipTouches(hands[i][IndexTip], c, k) || TipTouches(hands[i][MiddleTip], c, k))
  }

  /** The keys among the first `n` that fingertip `p` hits, in ascending order. */
  function KeysHit(p: Point, c: Canvas, n: nat): seq<int>
    requires n <= |KeyPositions|
  {
    if n == 0 then []
    else KeysHit(p, c, n - 1) + (if TipTouches(p, c, n - 1) then [n - 1] else [])
  }

  /** The hits of a list of fingertips, tip by tip. */
  function TipsHits(tips: seq<Point>, c: Canvas): seq<int> {
    if tips == [] then []
    else TipsHits(tips[..|tips| - 1], c) + KeysHit(tips[|tips| - 1], c, |KeyPositions|)
  }

  /** The two fingertips the scan reads from a hand. */
  function Tips(hand: Hand): seq<Point>
    requires |hand| > MiddleTip
  {
    [hand[IndexTip], hand[MiddleTip]]
  }

  /** Every hit of the frame, hand by hand, tip by tip, key by key, repeats included. */
  function AllHits(hands: seq<Hand>, c: Canvas): seq<int>
    requires WellFormedHands(hands)
  {
    if hands == [] then []
    else AllHits(hands[..|hands| - 1], c) + TipsHits(Tips(hands[|hands| - 1]), c)
  }

  /** JavaScript `Set.prototype.add` on a set viewed in insertion order. */
  function Insert(s: seq<int>, k: int): seq<int> {
    if k in s then s else s + [k]
  }

  /** Adding every element of `ks` in turn. */
  function InsertAll(s: seq<int>, ks: seq<int>): seq<int> {
    if ks == [] then s else Insert(InsertAll(s, ks[..|ks| - 1]), ks[|ks| - 1])
  }

  /** `currentlyTouched` after the scan, in its iteration order. */
  function ScanOrder(hands: seq<Hand>, c: Canvas): seq<int>
    requires WellFormedHands(hands)
  {
    InsertAll([], AllHits(hands, c))
  }

  predicate Distinct(s: seq<int>) {
    forall i, j :: 0 <= i < j < |s| ==> s[i] != s[j]
  }

  function Elements(s: seq<int>): set<int> {
    set k | k in s
  }

  lemma {:induction false} KeysHitContents(p: Point, c: Canvas, n: nat, k: int)
    requires n <= |KeyPositions|
    ensures k in KeysHit(p, c, n) <==> 0 <= k < n && TipTouches(p, c, k)
  {
    if n > 0 {
      KeysHitContents(p, c, n - 1, k);
      var hit := TipTouches(p, c, n - 1);
      if hit {
        assert KeysHit(p, c, n) == KeysHit(p, c, n - 1) + [n - 1];
      } else {
        assert KeysHit(p, c, n) == KeysHit(p, c, n - 1) + [];
      }
    }
  }

  lemma {:induction false} TipsHitsContents(tips: seq<Point>, c: Canvas, k: int)
    ensures k in TipsHits(tips, c) <==>
      IsKey(k) && exists j :: 0 <= j < |tips| && TipTouches(tips[j], c, k)
  {
    if tips != [] {
      var init := tips[..|tips| - 1];
      TipsHitsContents(init, c, k);
      KeysHitContents(tips[|tips| - 1], c, |KeyPositions|, k);
      if IsKey(k) && exists j :: 0 <= j < |tips| && TipTouches(tips[j], c, k) {
        var j :| 0 <= j < |tips| && TipTouches(tips[j], c, k);
        if j < |tips| - 1 {
          assert init[j] == tips[j];
        }
      }
      if IsKey(k) && exists j :: 0 <= j < |init| && TipTouches(init[j], c, k) {
        var j :| 0 <= j < |init| && TipTouches(init[j], c, k);
        assert tips[j] == init[j];
      }
    }
  }

  /** The hits of a frame are exactly the touched keys of the reference definition. */
  lemma {:induction false} AllHitsContents(hands: seq<Hand>, c: Canvas, k: int)
    requires WellFormedHands(hands)
    ensures k in AllHits(hands, c) <==> Touches(hands, c, k)
  {
    if hands != [] {
      var init, last := hands[..|hands| - 1], hands[|hands| - 1];
      AllHitsContents(init, c, k);
      TipsHitsContents(Tips(last), c, k);
      var tl := Tips(last);
      assert (IsKey(k) && exists j :: 0 <= j < |tl| && TipTouches(tl[j], c, k)) <==>
             IsKey(k) && (TipTouches(last[IndexTip], c, k) || TipTouches(last[MiddleTip], c, k)) by {
        if IsKey(k) && TipTouches(last[MiddleTip], c, k) { assert tl[1] == last[MiddleTip]; }
        if IsKey(k) && TipTouches(last[IndexTip], c, k) { assert tl[0] == last[IndexTip]; }
      }
      if Touches(hands, c, k) {
        var i :| 0 <= i < |hands| &&
          (TipTouches(hands[i][IndexTip], c, k) || TipTouches(hands[i][MiddleTip], c, k));
        if i < |hands| - 1 { assert init[i] == hands[i]; }
      }
      if Touches(init, c, k) {
        var i :| 0 <= i < |init| &&
          (TipTouches(init[i][IndexTip], c, k) || TipTouches(init[i][MiddleTip], c, k));
        assert hands[i] == init[i];
      }
    }
  }

  /** Adding to an insertion-ordered set keeps it duplicate-free, keeps its old
      elements in front and adds exactly the new elements. */
  lemma {:induction false} InsertAllContents(s: seq<int>, ks: seq<int>)
    requires Distinct(s)
    ensures Distinct(InsertAll(s, ks))
    ensures forall k :: k in InsertAll(s, ks) <==> k in s || k in ks
    ensures |s| <= |InsertAll(s, ks)| && InsertAll(s, ks)[..|s|] == s
  {
    if ks != [] {
      var init := ks[..|ks| - 1];
      InsertAllContents(s, init);
      assert forall k :: k in ks <==> k in init || k == ks[|ks| - 1] by {
        assert ks == init + [ks[|ks| - 1]];
      }
    }
  }

  /** Adding two lists in a row is adding their concatenation. */
  lemma {:induction false} InsertAllAppend(s: seq<int>, a: seq<int>, b: seq<int>)
    ensures InsertAll(s, a + b) == InsertAll(InsertAll(s, a), b)
  {
    if b == [] {
      assert a + b == a;
    } else {
      var init := b[..|b| - 1];
      InsertAllAppend(s, a, init);
      assert (a + b)[..|a + b| - 1] == a + init;
    }
  }

  /** The scan in insertion order holds each touched key once and nothing else. */
  lemma ScanOrderContents(hands: seq<Hand>, c: Canvas)
    requires WellFormedHands(hands)
    ensures Distinct(ScanOrder(hands, c))
    ensures forall k :: k in ScanOrder(hands, c) <==> Touches(hands, c, k)
  {
    InsertAllContents([], AllHits(hands, c));
    forall k ensures k in AllHits(hands, c) <==> Touches(hands, c, k) {
      AllHitsContents(hands, c, k);
    }
  }

  /** Every key in the scan is a key of the table. */
  lemma ScanOrderKeys(hands: seq<Hand>, c: Canvas)
    requires WellFormedHands(hands)
    ensures forall i :: 0 <= i < |ScanOrder(hands, c)| ==> IsKey(ScanOrder(hands, c)[i])
  {
    var cur := ScanOrder(hands, c);
    ScanOrderContents(hands, c);
    forall i | 0 <= i < |cur| ensures IsKey(cur[i]) {
      assert Touches(hands, c, cur[i]);
    }
  }

  /** A frame with no hands touches no key. */
  lemma NoHandsNoTouch(c: Canvas)
    ensures ScanOrder([], c) == []
  {
  }

  /** The innermost `forEach` of the scan: every key fingertip `tip` hits, checked at its
      pixel position, is added to `touched`. */
  method ScanTip(tip: Point, c: Canvas, touched: seq<int>) returns (r: seq<int>)
    ensures r == InsertAll(touched, KeysHit(tip, c, |KeyPositions|))
  {
    r := touched;
    var x, y := PixelX(tip, c), PixelY(tip, c);
    for keyIndex := 0 to |KeyPositions|
      invariant r == InsertAll(touched, KeysHit(tip, c, keyIndex))
    {
      if CheckKeyCollision(x, y, keyIndex, Some(c)) {
        if keyIndex !in r {
          r := r + [keyIndex];
        }
      }
      ghost var hits := KeysHit(tip, c, keyIndex);
      if TipTouches(tip, c, keyIndex) {
        assert (hits + [keyIndex])[..|hits|] == hits;
      } else {
        assert hits + [] == hits;
      }
    }
  }

  /** The middle `forEach`: the index and then the middle fingertip of `hand`. */
  method ScanHand(hand: Hand, c: Canvas, touched: seq<int>) returns (r: seq<int>)
    requires |hand| > MiddleTip
    ensures r == InsertAll(touched, TipsHits(Tips(hand), c))
  {
    var tips := Tips(hand);
    r := touched;
    for j := 0 to |tips|
      invariant r == InsertAll(touched, TipsHits(tips[..j], c))
    {
      r := ScanTip(tips[j], c, r);
      assert tips[..j + 1][..j] == tips[..j];
      InsertAllAppend(touched, TipsHits(tips[..j], c), KeysHit(tips[j], c, |KeyPositions|));
    }
    assert tips[..|tips|] == tips;
  }

  /** The per-frame scan of the source: for every hand, for its index and middle
      fingertips, for every key, add the key to `currentlyTouched` on a hit. */
  method CollectTouched(hands: seq<Hand>, c: Canvas) returns (currentlyTouched: seq<int>)
    requires WellFormedHands(hands)
    ensures currentlyTouched == ScanOrder(hands, c)
    ensures Distinct(currentlyTouched)
    ensures forall k :: k in currentlyTouched <==> Touches(hands, c, k)
  {
    currentlyTouched := [];
    for i := 0 to |hands|
      invariant currentlyTouched == InsertAll([], AllHits(hands[..i], c))
    {
      currentlyTouched := ScanHand(hands[i], c, currentlyTouched);
      assert hands[..i + 1][..i] == hands[..i];
      InsertAllAppend([], AllHits(hands[..i], c), TipsHits(Tips(hands[i]), c));
    }
    assert hands[..|hands|] == hands;
    ScanOrderContents(hands, c);
  }

  /** The keys of `currentlyTouched` that fire: those `triggerKey` finds not yet held,
      in scan order. */
  function FiredKeys(currentlyTouched: seq<int>, held: set<int>): seq<int> {
    FiredKeysTo(currentlyTouched, |currentlyTouched|, held)
  }

  /** The keys that fire among the first `n` of `currentlyTouched`. */
  function FiredKeysTo(currentlyTouched: seq<int>, n: nat, held: set<int>): seq<int>
    requires n <= |currentlyTouched|
  {
    if n == 0 then []
    else
      var k := currentlyTouched[n - 1];
      FiredKeysTo(currentlyTouched, n - 1, held) + (if k !in held then [k] else [])
  }

  lemma {:induction false} FiredKeysToContents(cur: seq<int>, n: nat, held: set<int>)
    requires n <= |cur|
    ensures forall k :: k in FiredKeysTo(cur, n, held) <==> k in cur[..n] && k !in held
    ensures Distinct(cur) ==> Distinct(FiredKeysTo(cur, n, held))
    ensures |FiredKeysTo(cur, n, held)| <= n
  {
    if n > 0 {
      FiredKeysToContents(cur, n - 1, held);
      assert cur[..n] == cur[..n - 1] + [cur[n - 1]];
      if Distinct(cur) {
        assert cur[n - 1] !in cur[..n - 1];
      }
    }
  }

  /** A key fires exactly when it is touched now and was not held; from a duplicate-free
      scan each such key fires once. */
  lemma FiredKeysContents(cur: seq<int>, held: set<int>)
    ensures forall k :: k in FiredKeys(cur, held) <==> k in cur && k !in held
    ensures Distinct(cur) ==> Distinct(FiredKeys(cur, held))
    ensures |FiredKeys(cur, held)| <= |cur|
  {
    FiredKeysToContents(cur, |cur|, held);
    assert cur[..|cur|] == cur;
  }

  /** After a frame the held keys, the old ones plus those that fired, cut down to the
      touched ones, are exactly the touched ones. */
  lemma HeldAfterFrame(cur: seq<int>, held: set<int>)
    ensures (held + Elements(FiredKeys(cur, held))) * Elements(cur) == Elements(cur)
  {
    FiredKeysContents(cur, held);
    forall k | k in Elements(cur)
      ensures k in held + Elements(FiredKeys(cur, held))
    {
      assert k in cur;
      if k !in held {
        assert k in FiredKeys(cur, held);
      }
    }
  }

  /** Among the first `n` scanned keys, none fires when all of them are held. */
  lemma {:induction false} FiredKeysToNone(cur: seq<int>, n: nat, held: set<int>)
    requires n <= |cur| && forall i :: 0 <= i < n ==> cur[i] in held
    ensures FiredKeysTo(cur, n, held) == []
  {
    if n > 0 {
      FiredKeysToNone(cur, n - 1, held);
    }
  }

  /** Scanning the same touched keys again, with exactly those keys held, fires nothing. */
  lemma RepeatedScanFiresNothing(cur: seq<int>)
    ensures FiredKeys(cur, Elements(cur)) == []
  {
    FiredKeysToNone(cur, |cur|, Elements(cur));
  }

  /** A key held across two frames never fires again in the second, and one touched in
      the second after being released in the first fires again. */
  lemma HeldKeyNeverRefires(first: seq<Hand>, second: seq<Hand>, c: Canvas, k: int)
    requires WellFormedHands(first) && WellFormedHands(second)
    ensures Touches(first, c, k) && Touches(second, c, k) ==>
      k !in FiredKeys(ScanOrder(second, c), Elements(ScanOrder(first, c)))
    ensures !Touches(first, c, k) && Touches(second, c, k) ==>
      k in FiredKeys(ScanOrder(second, c), Elements(ScanOrder(first, c)))
  {
    ScanOrderContents(first, c);
    ScanOrderContents(second, c);
    FiredKeysContents(ScanOrder(second, c), Elements(ScanOrder(first, c)));
  }
}
