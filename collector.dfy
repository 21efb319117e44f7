/** The data collector: the state it keeps between camera frames and the
    per-frame update that counts frames, runs the pose model on every second
    one, caches its detection, smooths, imputes and normalises the pose and,
    while recording, turns a sliding window of frames into dataset rows. */
module Collector {
  import opened Poses
  import opened Recording
  import opened Columns

  datatype Option<T> = None | Some(value: T)

  /** The pose model runs on every SkipFrames-th counted frame. */
  const SkipFrames: nat := 2
  /** Maximum number of raw poses the smoother averages. */
  const SmoothWindow: nat := 3

  datatype SaveError = NoData

  /** The table the exporter would write: a header and the dataset rows. */
  datatype Table = Table(columns: seq<string>, rows: seq<seq<real>>)

  datatype SaveResult = Saved(table: Table) | NotSaved(error: SaveError)

  /** A dataset row built from seqLength normalised frames and a label. */
  predicate IsRow(row: seq<real>, seqLength: nat) {
    |row| == seqLength * Features + 1
  }

  class DataCollector {
    /** Maximum length of the recording queue and number of frames per row. */
    const seqLength: nat
    /** The last reliable position of every joint, updated in place. */
    const lastValidPose: array<Point>

    var isRecording: bool
    var currentLabel: int
    var dataset: seq<seq<real>>
    /** Normalised vectors of the latest recorded frames, oldest first. */
    var sequenceBuffer: seq<seq<real>>
    /** Raw poses of the latest detections, oldest first. */
    var smoothBuffer: seq<seq<Point>>
    var frameCount: nat
    var cachedKeypoints: Option<seq<Point>>
    var cachedConf: Option<seq<real>>
    var cachedBox: Option<Box>

    /** The queues and the dataset have the shapes the update gives them. */
    ghost predicate BuffersValid()
      reads this
    {
      && lastValidPose.Length == Joints
      && |smoothBuffer| <= SmoothWindow && AllPoses(smoothBuffer)
      && |sequenceBuffer| <= seqLength && AllVectors(sequenceBuffer)
      && (forall k :: 0 <= k < |dataset| ==> IsRow(dataset[k], seqLength))
    }

    /** A cached pose always comes with its confidences and box. */
    ghost predicate CacheValid()
      reads this
    {
      cachedKeypoints.Some? ==>
        && IsPose(cachedKeypoints.value)
        && cachedConf.Some? && |cachedConf.value| == Joints
        && cachedBox.Some?
    }

    /** Between frames, a cached pose has also reached the smoother. */
    ghost predicate Valid()
      reads this
    {
      BuffersValid() && CacheValid() && (cachedKeypoints.Some? ==> |smoothBuffer| > 0)
    }

    /** A collector that is not recording, with no data, no cached detection
        and every joint's last reliable position at the origin. */
    constructor (seqLength: nat)
      ensures Valid()
      ensures this.seqLength == seqLength
      ensures !isRecording && currentLabel == 0 && dataset == []
      ensures sequenceBuffer == [] && smoothBuffer == [] && frameCount == 0
      ensures cachedKeypoints == None && cachedConf == None && cachedBox == None
      ensures fresh(lastValidPose) && lastValidPose[..] == seq(Joints, _ => Origin)
    {
      this.seqLength := seqLength;
      isRecording := false;
      currentLabel := 0;
      dataset := [];
      sequenceBuffer := [];
      smoothBuffer := [];
      lastValidPose := new Point[Joints](_ => Origin);
      frameCount := 0;
      cachedKeypoints := None;
      cachedBox := None;
      cachedConf := None;
    }

    /** Starts recording frames under the given label with an empty queue; the
        rows already collected are kept. */
    method StartRecording(labelIndex: int)
      requires Valid()
      modifies this
      ensures Valid()
      ensures isRecording && currentLabel == labelIndex && sequenceBuffer == []
      ensures dataset == old(dataset) && smoothBuffer == old(smoothBuffer)
      ensures frameCount == old(frameCount)
      ensures cachedKeypoints == old(cachedKeypoints) && cachedConf == old(cachedConf) && cachedBox == old(cachedBox)
    {
      isRecording := true;
      currentLabel := labelIndex;
      sequenceBuffer := [];
    }

    /** Stops recording; the queue, the label and the rows are kept. */
    method StopRecording()
      requires Valid()
      modifies this
      ensures Valid()
      ensures !isRecording
      ensures currentLabel == old(currentLabel) && sequenceBuffer == old(sequenceBuffer)
      ensures dataset == old(dataset) && smoothBuffer == old(smoothBuffer)
      ensures frameCount == old(frameCount)
      ensures cachedKeypoints == old(cachedKeypoints) && cachedConf == old(cachedConf) && cachedBox == old(cachedBox)
    {
      isRecording := false;
    }

    /** The export: no table for an empty dataset, otherwise the columns
        v0 .. v(seqLength * Features - 1), "label" and the rows as collected,
        each with exactly one value per column. */
    method SaveCsv() returns (r: SaveResult)
      requires Valid()
      ensures r.NotSaved? <==> dataset == []
      ensures r.NotSaved? ==> r.error == NoData
      ensures r.Saved? ==> r.table.columns == ColumnNames(seqLength) && r.table.rows == dataset
      ensures r.Saved? ==> forall k :: 0 <= k < |r.table.rows| ==> |r.table.rows[k]| == |r.table.columns|
    {
      if dataset == [] {
        return NotSaved(NoData);
      }
      var columns := ColumnNames(seqLength);
      r := Saved(Table(columns, dataset));
    }

    /** Imputes every untrusted joint from the last reliable pose and records
        every trusted joint as the new last reliable position; returns the
        pose normalised by its hip centre and the imputed pose. */
    method PreprocessKeypoints(keypoints: seq<Point>, confidences: seq<real>)
      returns (normalized: seq<real>, display: seq<Point>)
      requires lastValidPose.Length == Joints
      requires IsPose(keypoints) && |confidences| == Joints
      modifies lastValidPose
      ensures |display| == Joints
      ensures forall i :: 0 <= i < Joints ==>
        if Unreliable(keypoints[i], confidences[i])
        then display[i] == old(lastValidPose[i]) && lastValidPose[i] == old(lastValidPose[i])
        else display[i] == keypoints[i] && lastValidPose[i] == keypoints[i]
      ensures display == Impute(keypoints, confidences, old(lastValidPose[..]))
      ensures lastValidPose[..] == display
      ensures normalized == Normalize(display)
    {
      display := keypoints;
      var i := 0;
      while i < Joints
        invariant 0 <= i <= Joints && |display| == Joints
        invariant forall j :: 0 <= j < i ==>
          display[j] == (if Unreliable(keypoints[j], confidences[j]) then old(lastValidPose[j]) else keypoints[j])
        invariant forall j :: i <= j < Joints ==> display[j] == keypoints[j]
        invariant forall j :: 0 <= j < i ==> lastValidPose[j] == display[j]
        invariant forall j :: i <= j < Joints ==> lastValidPose[j] == old(lastValidPose[j])
      {
        if confidences[i] < MinConfidence || (display[i].x == 0.0 && display[i].y == 0.0) {
          display := display[i := lastValidPose[i]];
        } else {
          lastValidPose[i] := display[i];
        }
        i := i + 1;
      }
      normalized := Normalize(display);
    }

    /** One camera frame. frameOk says whether the camera delivered a frame;
        detection is what the pose model would report for it (it is only
        consulted on frames where the model runs). Returns whether the frame
        was processed and the number of dataset rows. */
    method Step(frameOk: bool, detection: Option<Detection>) returns (ok: bool, datasetSize: nat)
      requires Valid()
      requires detection.Some? ==> WellFormed(detection.value)
      modifies this, lastValidPose
      ensures Valid()
      ensures ok == frameOk && datasetSize == |dataset|
      // a missing frame changes nothing
      ensures !frameOk ==> unchanged(this) && unchanged(lastValidPose)
      // counting and cadence
      ensures frameOk ==> frameCount == old(frameCount) + 1
      ensures isRecording == old(isRecording) && currentLabel == old(currentLabel)
      // the detection cache
      ensures frameOk && frameCount % SkipFrames == 0 && detection.Some? ==>
        && cachedKeypoints == Some(detection.value.keypoints)
        && cachedConf == Some(detection.value.conf)
        && cachedBox == Some(detection.value.box)
      ensures frameOk && frameCount % SkipFrames == 0 && detection.None? ==>
        cachedKeypoints == None && cachedConf == old(cachedConf) && cachedBox == old(cachedBox)
      ensures frameOk && frameCount % SkipFrames != 0 ==>
        cachedKeypoints == old(cachedKeypoints) && cachedConf == old(cachedConf) && cachedBox == old(cachedBox)
      // the smoother grows only on a frame where the model found a person
      ensures if frameOk && frameCount % SkipFrames == 0 && detection.Some?
        then smoothBuffer == Push(old(smoothBuffer), detection.value.keypoints, SmoothWindow)
        else smoothBuffer == old(smoothBuffer)
      // a frame with a cached pose imputes the smoothed pose and, while
      // recording, records its normalised vector
      ensures frameOk && cachedKeypoints.Some? ==>
        lastValidPose[..] == Impute(Mean(smoothBuffer), cachedConf.value, old(lastValidPose[..]))
      ensures frameOk && cachedKeypoints.Some? && isRecording ==>
        Recorder(sequenceBuffer, dataset)
          == Record(Recorder(old(sequenceBuffer), old(dataset)), Normalize(lastValidPose[..]), seqLength, currentLabel)
      ensures !(frameOk && cachedKeypoints.Some?) ==> lastValidPose[..] == old(lastValidPose[..])
      ensures !(frameOk && cachedKeypoints.Some? && isRecording) ==>
        sequenceBuffer == old(sequenceBuffer) && dataset == old(dataset)
      // the dataset only grows, by at most one row, labelled last
      ensures |old(dataset)| <= |dataset| <= |old(dataset)| + 1 && dataset[..|old(dataset)|] == old(dataset)
      ensures |dataset| == |old(dataset)| + 1 ==>
        && isRecording && |sequenceBuffer| == seqLength
        && dataset[|dataset| - 1] == Row(sequenceBuffer, currentLabel)
        && dataset[|dataset| - 1][seqLength * Features] == currentLabel as real
    {
      if !frameOk {
        return false, |dataset|;
      }
      frameCount := frameCount + 1;
      var runInference := frameCount % SkipFrames == 0;
      if runInference {
        UpdateCache(detection);
      }
      if cachedKeypoints.Some? {
        ProcessCachedPose(runInference);
      }
      return true, |dataset|;
    }

    /** The result of running the pose model: a person found replaces the
        cached pose, confidences and box; no person clears only the pose. */
    method UpdateCache(detection: Option<Detection>)
      requires BuffersValid() && CacheValid()
      requires detection.Some? ==> WellFormed(detection.value)
      modifies this
      ensures BuffersValid() && CacheValid()
      ensures detection.Some? ==>
        && cachedKeypoints == Some(detection.value.keypoints)
        && cachedConf == Some(detection.value.conf)
        && cachedBox == Some(detection.value.box)
      ensures detection.None? ==>
        cachedKeypoints == None && cachedConf == old(cachedConf) && cachedBox == old(cachedBox)
      ensures isRecording == old(isRecording) && currentLabel == old(currentLabel) && frameCount == old(frameCount)
      ensures dataset == old(dataset) && sequenceBuffer == old(sequenceBuffer) && smoothBuffer == old(smoothBuffer)
    {
      match detection
      case Some(d) =>
        cachedKeypoints := Some(d.keypoints);
        cachedConf := Some(d.conf);
        cachedBox := Some(d.box);
      case None =>
        cachedKeypoints := None;
    }

    /** A frame with a cached pose: on a frame where the model ran the pose
        joins the smoother; the mean of the smoother is imputed and normalised
        and, while recording, the normalised vector is recorded. */
    method ProcessCachedPose(runInference: bool)
      requires BuffersValid() && CacheValid() && cachedKeypoints.Some?
      requires !runInference ==> |smoothBuffer| > 0
      modifies this, lastValidPose
      ensures Valid() && cachedKeypoints.Some?
      ensures smoothBuffer == if runInference then Push(old(smoothBuffer), cachedKeypoints.value, SmoothWindow) else old(smoothBuffer)
      ensures lastValidPose[..] == Impute(Mean(smoothBuffer), cachedConf.value, old(lastValidPose[..]))
      ensures isRecording ==>
        Recorder(sequenceBuffer, dataset)
          == Record(Recorder(old(sequenceBuffer), old(dataset)), Normalize(lastValidPose[..]), seqLength, currentLabel)
      ensures !isRecording ==> sequenceBuffer == old(sequenceBuffer) && dataset == old(dataset)
      ensures isRecording == old(isRecording) && currentLabel == old(currentLabel) && frameCount == old(frameCount)
      ensures cachedKeypoints == old(cachedKeypoints) && cachedConf == old(cachedConf) && cachedBox == old(cachedBox)
    {
      var rawKp := cachedKeypoints.value;
      var conf := cachedConf.value;
      if runInference {
        PushPose(smoothBuffer, rawKp);
        smoothBuffer := Push(smoothBuffer, rawKp, SmoothWindow);
      }
      if |smoothBuffer| > 0 {
        var smoothed := Mean(smoothBuffer);
        var processed, display := PreprocessKeypoints(smoothed, conf);
        if isRecording {
          RecordFrame(processed);
        }
      }
    }

    /** Pushes one normalised vector into the recording queue and, when the
        queue is then full, appends the flattened queue and the label as a new
        dataset row. */
    method RecordFrame(processed: seq<real>)
      requires BuffersValid() && |processed| == Features
      modifies this
      ensures BuffersValid()
      ensures Recorder(sequenceBuffer, dataset)
           == Record(Recorder(old(sequenceBuffer), old(dataset)), processed, seqLength, currentLabel)
      ensures isRecording == old(isRecording) && currentLabel == old(currentLabel) && frameCount == old(frameCount)
      ensures cachedKeypoints == old(cachedKeypoints) && cachedConf == old(cachedConf) && cachedBox == old(cachedBox)
      ensures smoothBuffer == old(smoothBuffer)
    {
      PushVector(sequenceBuffer, processed, seqLength);
      sequenceBuffer := Push(sequenceBuffer, processed, seqLength);
      if |sequenceBuffer| == seqLength {
        dataset := dataset + [Row(sequenceBuffer, currentLabel)];
      }
    }
  }

  /** Pushing a pose onto the smoother keeps it a non-empty deque of poses. */
  lemma PushPose(q: seq<seq<Point>>, kp: seq<Point>)
    requires |q| <= SmoothWindow && AllPoses(q) && IsPose(kp)
    ensures |Push(q, kp, SmoothWindow)| > 0 && AllPoses(Push(q, kp, SmoothWindow))
  {
  }

  /** Pushing a normalised vector onto the recording queue keeps it a queue of
      normalised vectors. */
  lemma PushVector(q: seq<seq<real>>, v: seq<real>, seqLength: nat)
    requires |q| <= seqLength && AllVectors(q) && |v| == Features
    ensures AllVectors(Push(q, v, seqLength))
  {
  }
}
