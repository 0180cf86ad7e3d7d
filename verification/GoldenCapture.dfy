/** The startup golden capture: codec chunks arrive codebook-major per chunk and are reassembled
    into one codebook-major tensor, however the frames were split into chunks. */
module GoldenCapture {
  import opened Options
  import opened Request

  /** What has been captured so far. */
  datatype Capture = Capture(
    codebooks: nat,
    hop: nat,
    maximumFrames: nat,
    frameCount: nat,
    decoder: seq<seq<int>>,
    scheduled: seq<int>,
    pcm: seq<Sample>)

  /** The sequences whose digests are compared with the golden receipt. */
  datatype Actual = Actual(tokens: seq<int>, codes: seq<int>, frameCount: nat, pcm: seq<Sample>)

  predicate Dimensions(codebooks: nat, hop: nat, maximumFrames: nat) {
    codebooks > 0 && hop > 0 && maximumFrames > 0
  }

  function Fresh(codebooks: nat, hop: nat, maximumFrames: nat): Capture {
    Capture(codebooks, hop, maximumFrames, 0, seq(codebooks, _ => []), [], [])
  }

  predicate AllFinite(pcm: seq<Sample>) {
    forall i :: 0 <= i < |pcm| ==> pcm[i].Finite?
  }

  predicate Accepts(c: Capture, codes: seq<int>, frames: nat, pcm: seq<Sample>) {
    && 0 < frames <= c.maximumFrames - c.frameCount
    && |codes| == c.codebooks * frames
    && |pcm| == c.hop * frames
    && AllFinite(pcm)
  }

  /** Row b of a chunk of codes laid out codebook after codebook. */
  function Row(codes: seq<int>, frames: nat, b: nat): seq<int>
    requires (b + 1) * frames <= |codes|
    requires b * frames <= (b + 1) * frames
  {
    codes[b * frames..(b + 1) * frames]
  }

  lemma RowBounds(codebooks: nat, frames: nat, b: nat)
    requires b < codebooks
    ensures b * frames <= (b + 1) * frames <= codebooks * frames
  {
    Distribute(b, 1, frames);
    Distribute(b + 1, codebooks - b - 1, frames);
    Product(codebooks - b - 1, frames);
  }

  lemma Product(a: nat, b: nat)
    ensures a * b >= 0
  {
  }

  lemma Distribute(a: nat, b: nat, h: nat)
    ensures (a + b) * h == a * h + b * h
    ensures h * (a + b) == h * a + h * b
  {
  }

  /** Every codebook is extended by its own row of the chunk. */
  ghost predicate Recorded(c: Capture, codes: seq<int>, frames: nat, pcm: seq<Sample>, d: Capture)
    requires |c.decoder| == c.codebooks && |codes| == c.codebooks * frames
  {
    && d == c.(frameCount := c.frameCount + frames, scheduled := c.scheduled + codes,
               pcm := c.pcm + pcm, decoder := d.decoder)
    && |d.decoder| == c.codebooks
    && forall b :: 0 <= b < c.codebooks ==>
         (RowBounds(c.codebooks, frames, b); d.decoder[b] == c.decoder[b] + Row(codes, frames, b))
  }

  function Flatten(rows: seq<seq<int>>): seq<int> {
    if rows == [] then [] else rows[0] + Flatten(rows[1..])
  }

  function Finish(c: Capture): Option<Actual> {
    if c.frameCount == 0 then None
    else if exists b :: 0 <= b < |c.decoder| && |c.decoder[b]| != c.frameCount then None
    else Some(Actual(Flatten(c.decoder), c.scheduled, c.frameCount, c.pcm))
  }

  /** What holds of a capture after any calls, accepted and refused ones. */
  ghost predicate Sound(c: Capture) {
    && |c.decoder| == c.codebooks
    && (forall b :: 0 <= b < |c.decoder| ==> |c.decoder[b]| == c.frameCount)
    && |c.scheduled| == c.codebooks * c.frameCount
    && |c.pcm| == c.hop * c.frameCount && AllFinite(c.pcm)
    && c.frameCount <= c.maximumFrames
  }

  lemma RecordedSound(c: Capture, codes: seq<int>, frames: nat, pcm: seq<Sample>, d: Capture)
    requires Sound(c) && Accepts(c, codes, frames, pcm) && Recorded(c, codes, frames, pcm, d)
    ensures Sound(d)
  {
    Distribute(c.frameCount, frames, c.codebooks);
    Distribute(c.frameCount, frames, c.hop);
    forall b | 0 <= b < |d.decoder| ensures |d.decoder[b]| == d.frameCount {
      RowBounds(c.codebooks, frames, b);
      Distribute(b, 1, frames);
    }
  }

  class StartupGoldenCapture {
    const codebooks: nat
    const hop: nat
    const maximumFrames: nat
    var frameCount: nat
    var decoder: seq<seq<int>>
    var scheduled: seq<int>
    var pcm: seq<Sample>

    /** Every codebook has a code for each frame, every frame its finite samples. */
    ghost predicate Valid()
      reads this
    {
      Sound(Model())
    }

    function Model(): Capture
      reads this
    {
      Capture(codebooks, hop, maximumFrames, frameCount, decoder, scheduled, pcm)
    }

    constructor (codebooks: nat, hop: nat, maximumFrames: nat)
      requires Dimensions(codebooks, hop, maximumFrames)
      ensures Valid() && Model() == Fresh(codebooks, hop, maximumFrames)
    {
      this.codebooks, this.hop, this.maximumFrames := codebooks, hop, maximumFrames;
      frameCount, scheduled, pcm := 0, [], [];
      decoder := seq(codebooks, _ => []);
    }

    method RecordChunk(codes: seq<int>, frames: nat, samples: seq<Sample>) returns (ok: bool)
      requires Valid()
      modifies this
      ensures Valid()
      ensures ok == Accepts(old(Model()), codes, frames, samples)
      ensures ok <==> frameCount > old(frameCount)
      ensures !ok ==> Model() == old(Model())
      ensures ok ==> Recorded(old(Model()), codes, frames, samples, Model())
    {
      if frames == 0 || frames > maximumFrames - frameCount {
        return false;
      }
      if |codes| != codebooks * frames || |samples| != hop * frames {
        return false;
      }
      for i := 0 to |samples|
        invariant forall j :: 0 <= j < i ==> samples[j].Finite?
      {
        if samples[i].NonFinite? {
          return false;
        }
      }
      scheduled := scheduled + codes;
      AppendRows(codes, frames);
      pcm := pcm + samples;
      frameCount := frameCount + frames;
      RecordedSound(old(Model()), codes, frames, samples, Model());
      return true;
    }

    method AppendRows(codes: seq<int>, frames: nat)
      requires |decoder| == codebooks && |codes| == codebooks * frames
      modifies this`decoder
      ensures |decoder| == codebooks
      ensures forall b :: 0 <= b < codebooks ==>
                (RowBounds(codebooks, frames, b);
                 decoder[b] == old(decoder)[b] + Row(codes, frames, b))
    {
      var b := 0;
      while b < codebooks
        invariant 0 <= b <= codebooks == |decoder|
        invariant forall k :: b <= k < codebooks ==> decoder[k] == old(decoder)[k]
        invariant forall k :: 0 <= k < b ==>
                    (RowBounds(codebooks, frames, k);
                     decoder[k] == old(decoder)[k] + Row(codes, frames, k))
      {
        RowBounds(codebooks, frames, b);
        var begin := b * frames;
        assert (b + 1) * frames == begin + frames;
        decoder := decoder[b := decoder[b] + codes[begin..begin + frames]];
        b := b + 1;
      }
    }

    method FinishCapture() returns (r: Option<Actual>)
      requires |decoder| == codebooks
      ensures r == Finish(Model())
    {
      if frameCount == 0 {
        return None;
      }
      var tokens: seq<int> := [];
      var b := 0;
      while b < |decoder|
        invariant 0 <= b <= |decoder|
        invariant forall k :: 0 <= k < b ==> |decoder[k]| == frameCount
        invariant tokens + Flatten(decoder[b..]) == Flatten(decoder)
      {
        if |decoder[b]| != frameCount {
          return None;
        }
        assert decoder[b..][1..] == decoder[b + 1..];
        assert tokens + (decoder[b] + Flatten(decoder[b + 1..]))
            == (tokens + decoder[b]) + Flatten(decoder[b + 1..]);
        tokens := tokens + decoder[b];
        b := b + 1;
      }
      assert tokens + [] == tokens;
      return Some(Actual(tokens, scheduled, frameCount, pcm));
    }
  }

  lemma InconsistentHasNone(c: Capture, b: nat)
    requires b < |c.decoder| && |c.decoder[b]| != c.frameCount
    ensures Finish(c) == None
  {
  }

  /** So the inconsistency that the end of a capture looks for is never there: it has a result
      exactly when some chunk was accepted, one code per codebook and frame. */
  lemma SoundHasResult(c: Capture)
    requires Sound(c)
    ensures Finish(c).Some? <==> c.frameCount > 0
    ensures Finish(c).Some? ==>
              var r := Finish(c).value;
              && r.frameCount == c.frameCount && r.codes == c.scheduled && r.pcm == c.pcm
              && |r.tokens| == |r.codes| == c.codebooks * c.frameCount
              && r.tokens == Flatten(c.decoder)
  {
    FlattenLength(c.decoder, c.frameCount);
  }

  // ---------- independence of the chunking ----------

  /** A code matrix: one row of `frames` codes per codebook. */
  predicate Matrix(rows: seq<seq<int>>, codebooks: nat, frames: nat) {
    |rows| == codebooks && forall b :: 0 <= b < |rows| ==> |rows[b]| == frames
  }

  /** Columns [from, to) of a matrix. */
  function Columns(rows: seq<seq<int>>, from: nat, to: nat): seq<seq<int>>
    requires from <= to
    requires forall b :: 0 <= b < |rows| ==> to <= |rows[b]|
  {
    seq(|rows|, b requires 0 <= b < |rows| => rows[b][from..to])
  }

  /** A matrix flattened codebook after codebook holds row b at offset b * frames. */
  lemma {:induction false} FlattenRow(rows: seq<seq<int>>, frames: nat, b: nat)
    requires Matrix(rows, |rows|, frames) && b < |rows|
    ensures |Flatten(rows)| == |rows| * frames
    ensures b * frames <= (b + 1) * frames <= |Flatten(rows)|
    ensures Row(Flatten(rows), frames, b) == rows[b]
    decreases |rows|
  {
    var rest := rows[1..];
    FlattenLength(rows, frames);
    FlattenLength(rest, frames);
    RowBounds(|rows|, frames, b);
    if b > 0 {
      FlattenRow(rest, frames, b - 1);
      Distribute(b - 1, 1, frames);
      Distribute(b, 1, frames);
      SkipFirst(rows[0], Flatten(rest), (b - 1) * frames, b * frames);
    }
  }

  lemma SkipFirst(first: seq<int>, rest: seq<int>, from: nat, to: nat)
    requires from <= to <= |rest|
    ensures (first + rest)[|first| + from..|first| + to] == rest[from..to]
  {
  }

  lemma {:induction false} FlattenLength(rows: seq<seq<int>>, frames: nat)
    requires Matrix(rows, |rows|, frames)
    ensures |Flatten(rows)| == |rows| * frames
    decreases |rows|
  {
    if rows != [] {
      FlattenLength(rows[1..], frames);
      Distribute(1, |rows| - 1, frames);
    }
  }

  function Sum(splits: seq<nat>): nat {
    if splits == [] then 0 else splits[0] + Sum(splits[1..])
  }

  /** What a capture holds after the first `done` frames of a matrix and its PCM. */
  predicate Holds(c: Capture, rows: seq<seq<int>>, pcm: seq<Sample>, done: nat) {
    && |rows| == |c.decoder| == c.codebooks
    && c.frameCount == done
    && (forall b :: 0 <= b < |rows| ==> done <= |rows[b]| && c.decoder[b] == rows[b][..done])
    && |c.scheduled| == c.codebooks * done
    && done * c.hop <= |pcm| && c.pcm == pcm[..done * c.hop]
  }

  /** One chunk of any positive size is accepted. */
  lemma ChunkAccepted(c: Capture, rows: seq<seq<int>>, frames: nat, pcm: seq<Sample>, done: nat,
                      n: nat)
    requires Holds(c, rows, pcm, done) && Matrix(rows, c.codebooks, frames)
    requires |pcm| == frames * c.hop && AllFinite(pcm)
    requires 0 < n && done + n <= frames <= c.maximumFrames
    ensures done * c.hop <= (done + n) * c.hop <= |pcm|
    ensures Accepts(c, Flatten(Columns(rows, done, done + n)), n,
                    pcm[done * c.hop..(done + n) * c.hop])
  {
    FlattenLength(Columns(rows, done, done + n), n);
    Distribute(done, n, c.hop);
    Distribute(done + n, frames - done - n, c.hop);
    Product(n, c.hop);
    Product(frames - done - n, c.hop);
  }

  lemma RowsExtended(c: Capture, d: Capture, rows: seq<seq<int>>, frames: nat, done: nat, n: nat,
                     samples: seq<Sample>)
    requires Matrix(rows, c.codebooks, frames) && done + n <= frames
    requires |c.decoder| == c.codebooks
    requires forall b :: 0 <= b < |rows| ==> c.decoder[b] == rows[b][..done]
    requires |Flatten(Columns(rows, done, done + n))| == c.codebooks * n
    requires Recorded(c, Flatten(Columns(rows, done, done + n)), n, samples, d)
    ensures forall b :: 0 <= b < |rows| ==> d.decoder[b] == rows[b][..done + n]
  {
    var chunk := Columns(rows, done, done + n);
    forall b | 0 <= b < |rows| ensures d.decoder[b] == rows[b][..done + n] {
      RowBounds(c.codebooks, n, b);
      FlattenRow(chunk, n, b);
      assert rows[b][..done] + rows[b][done..done + n] == rows[b][..done + n];
    }
  }

  /** And an accepted chunk lands in place. */
  lemma ChunkHeld(c: Capture, d: Capture, rows: seq<seq<int>>, frames: nat, pcm: seq<Sample>,
                  done: nat, n: nat)
    requires Holds(c, rows, pcm, done) && Matrix(rows, c.codebooks, frames)
    requires done + n <= frames && done * c.hop <= (done + n) * c.hop <= |pcm|
    requires |Flatten(Columns(rows, done, done + n))| == c.codebooks * n
    requires Recorded(c, Flatten(Columns(rows, done, done + n)), n,
                      pcm[done * c.hop..(done + n) * c.hop], d)
    ensures Holds(d, rows, pcm, done + n)
  {
    var from, to := done * c.hop, (done + n) * c.hop;
    RowsExtended(c, d, rows, frames, done, n, pcm[from..to]);
    Distribute(done, n, c.codebooks);
    assert pcm[..from] + pcm[from..to] == pcm[..to];
  }

  /** The codes in scheduling order: chunk after chunk, each codebook-major by itself. */
  function CodesFrom(rows: seq<seq<int>>, frames: nat, splits: seq<nat>, done: nat): seq<int>
    requires Matrix(rows, |rows|, frames) && done + Sum(splits) <= frames
    decreases |splits|
  {
    if splits == [] then []
    else
      Flatten(Columns(rows, done, done + splits[0]))
      + CodesFrom(rows, frames, splits[1..], done + splits[0])
  }

  /** Records the next `n` frames of a matrix and its PCM. */
  method CaptureNext(capture: StartupGoldenCapture, rows: seq<seq<int>>, ghost frames: nat,
                     pcm: seq<Sample>, done: nat, n: nat)
    requires capture.Valid() && Holds(capture.Model(), rows, pcm, done)
    requires Matrix(rows, capture.codebooks, frames)
    requires |pcm| == frames * capture.hop && AllFinite(pcm)
    requires 0 < n && done + n <= frames <= capture.maximumFrames
    modifies capture
    ensures capture.Valid() && Holds(capture.Model(), rows, pcm, done + n)
    ensures capture.scheduled
         == old(capture.scheduled) + Flatten(Columns(rows, done, done + n))
  {
    ghost var before := capture.Model();
    ChunkAccepted(before, rows, frames, pcm, done, n);
    var codes := Flatten(Columns(rows, done, done + n));
    var ok := capture.RecordChunk(codes, n, pcm[done * capture.hop..(done + n) * capture.hop]);
    ChunkHeld(before, capture.Model(), rows, frames, pcm, done, n);
  }

  lemma HeldResult(c: Capture, rows: seq<seq<int>>, pcm: seq<Sample>, frames: nat)
    requires Holds(c, rows, pcm, frames) && Matrix(rows, |rows|, frames)
    requires |pcm| == frames * c.hop && frames > 0
    ensures Finish(c) == Some(Actual(Flatten(rows), c.scheduled, frames, pcm))
    ensures |c.scheduled| == |rows| * frames
  {
    forall b | 0 <= b < |rows| ensures c.decoder[b] == rows[b] {
      assert rows[b][..frames] == rows[b];
    }
    assert c.decoder == rows;
    assert pcm[..frames * c.hop] == pcm;
  }

  lemma CodesNext(rows: seq<seq<int>>, frames: nat, splits: seq<nat>, done: nat,
                  earlier: seq<int>)
    requires Matrix(rows, |rows|, frames) && done + Sum(splits) <= frames && splits != []
    ensures earlier + CodesFrom(rows, frames, splits, done)
         == (earlier + Flatten(Columns(rows, done, done + splits[0])))
            + CodesFrom(rows, frames, splits[1..], done + splits[0])
  {
  }

  /** Capture is independent of chunking. For any code matrix, any finite PCM and any split of
      the frames into positive chunks, every chunk is accepted, no length inconsistency can arise,
      and the result is the codebook-major matrix, the whole PCM, and the codes of each chunk in the
      order of the chunks, one code per cell. */
  method CaptureInChunks(rows: seq<seq<int>>, pcm: seq<Sample>, splits: seq<nat>, hop: nat,
                         maximumFrames: nat)
    returns (r: Option<Actual>)
    requires rows != [] && hop > 0 && 0 < Sum(splits) <= maximumFrames
    requires Matrix(rows, |rows|, Sum(splits))
    requires |pcm| == Sum(splits) * hop && AllFinite(pcm)
    requires forall k :: 0 <= k < |splits| ==> splits[k] > 0
    ensures r.Some?
    ensures r.value.tokens == Flatten(rows)
    ensures r.value.pcm == pcm && r.value.frameCount == Sum(splits)
    ensures |r.value.codes| == |rows| * Sum(splits)
    ensures r.value.codes == CodesFrom(rows, Sum(splits), splits, 0)
  {
    var capture := new StartupGoldenCapture(|rows|, hop, maximumFrames);
    CaptureAll(capture, rows, Sum(splits), pcm, splits);
    HeldResult(capture.Model(), rows, pcm, Sum(splits));
    r := capture.FinishCapture();
  }

  /** Records the first of the remaining chunks. */
  method CaptureFirst(capture: StartupGoldenCapture, rows: seq<seq<int>>, ghost total: nat,
                      pcm: seq<Sample>, done: nat, splits: seq<nat>)
    requires capture.Valid() && Holds(capture.Model(), rows, pcm, done)
    requires |rows| == capture.codebooks && Matrix(rows, |rows|, total)
    requires |pcm| == total * capture.hop && AllFinite(pcm)
    requires splits != [] && splits[0] > 0
    requires done + Sum(splits) == total <= capture.maximumFrames
    modifies capture
    ensures capture.Valid() && Holds(capture.Model(), rows, pcm, done + splits[0])
    ensures capture.scheduled + CodesFrom(rows, total, splits[1..], done + splits[0])
         == old(capture.scheduled) + CodesFrom(rows, total, splits, done)
  {
    CodesNext(rows, total, splits, done, capture.scheduled);
    CaptureNext(capture, rows, total, pcm, done, splits[0]);
  }

  method CaptureAll(capture: StartupGoldenCapture, rows: seq<seq<int>>, ghost total: nat,
                    pcm: seq<Sample>, splits: seq<nat>)
    requires capture.Valid() && capture.Model() == Fresh(|rows|, capture.hop, capture.maximumFrames)
    requires Sum(splits) == total <= capture.maximumFrames
    requires Matrix(rows, |rows|, total)
    requires |pcm| == total * capture.hop && AllFinite(pcm)
    requires forall k :: 0 <= k < |splits| ==> splits[k] > 0
    modifies capture
    ensures capture.Valid() && Holds(capture.Model(), rows, pcm, total)
    ensures capture.scheduled == CodesFrom(rows, total, splits, 0)
  {
    var k, done: nat := 0, 0;
    assert splits[0..] == splits;
    while k < |splits|
      invariant 0 <= k <= |splits| && done + Sum(splits[k..]) == total
      invariant capture.Valid() && Holds(capture.Model(), rows, pcm, done)
      invariant capture.scheduled + CodesFrom(rows, total, splits[k..], done)
             == CodesFrom(rows, total, splits, 0)
    {
      SumNext(splits, k);
      CaptureFirst(capture, rows, total, pcm, done, splits[k..]);
      done := done + splits[k];
      k := k + 1;
    }
    assert capture.scheduled + [] == capture.scheduled;
  }

  lemma SumNext(splits: seq<nat>, k: nat)
    requires k < |splits|
    ensures Sum(splits[k..]) == splits[k] + Sum(splits[k + 1..])
    ensures splits[k..][1..] == splits[k + 1..] && splits[k..][0] == splits[k]
  {
  }
}
