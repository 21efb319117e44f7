# Pose data collector: per-frame state update

This project models the logic of `DataCollectorLogic` in `collector_logic.py`, a
tool that records labelled training data for pose-based action recognition. A
camera delivers frames. A pose model finds the 17 joints of one person. For each
frame the collector does the following:

- It counts the frame and runs the pose model on every second counted frame.
- It caches the detection for the frames in between.
- It averages the last three raw detections.
- It fills in each joint it does not trust from that joint's own last trusted
  position, and records every trusted joint as that position.
- It moves the pose so that the midpoint of the hips sits at the origin. This
  gives a vector of 34 numbers.
- While recording, it pushes that vector into a queue of at most `seq_length`
  vectors. Whenever the queue is full it appends one dataset row: the queue
  flattened, followed by the label.
- Its export refuses an empty dataset and names the columns `v0 ..
  v(seq_length*34-1)` and `label`.

The modules follow that structure:

- `poses.dfy`, module `Poses`: keypoints, the elementwise mean the smoother
  computes, per-joint imputation and hip-centre normalisation.
- `recording.dfy`, module `Recording`: a deque with a maximum length, the
  flattening of a window into a row, and what recording a run of frames does to
  the queue and the dataset.
- `columns.dfy`, module `Columns`: the export header.
- `collector.dfy`, module `Collector`: the class `DataCollector`, which holds the
  collector's fields. `Step` models one call of `process_frame` without the
  drawing. `lastValidPose` is an array that is updated in place, like the
  `(17, 2)` numpy array it models.

The callers expect more than `collector_logic.py` provides:

- collector_gui.py:90 labels the record button as a 3-second recording.
- collector_gui.py:114-115 offers to undo the last "data and video".
- collector_gui.py:74 unpacks an `is_rec` flag from `process_frame`.

The model follows `collector_logic.py`. The recording queue is a sliding window.
The anchor is always the hip midpoint. A missed detection clears the cached pose
at once.

Inputs that come from outside the collector are parameters of `Step`:

- `frameOk` says whether the camera thread had a frame.
- `detection` is what the pose model reports for the first person it finds. It
  is `None` when it finds nobody.

The pose model always reports 17 keypoints and 17 confidences. `Step` requires
exactly that of a detection.

## Model

| member | source | states |
|---|---|---|
| Collector.DataCollector.constructor | collector_logic.py:66-85 | The collector starts not recording with label 0. The dataset and both queues are empty, the frame count is 0 and nothing is cached. Every joint's last reliable position is the origin. |
| Collector.DataCollector.StartRecording | collector_logic.py:94-97 | Sets recording on, sets the label and empties the recording queue. Leaves the dataset, the smoother, the count and the cache alone. |
| Collector.DataCollector.StopRecording | collector_logic.py:99-100 | Only turns recording off. The queue, the label and the dataset are kept. |
| Collector.DataCollector.SaveCsv | collector_logic.py:102-106 | Refuses with NoData exactly when the dataset is empty. Otherwise it gives the table whose columns are v0 .. v(seqLength*34-1) then "label", and whose rows are the dataset. Every row has one value per column. |
| Collector.DataCollector.PreprocessKeypoints | collector_logic.py:114-124 | An untrusted joint (confidence < 0.5, or at (0,0)) takes the prior last reliable position, and that slot is unchanged. A trusted joint is kept and becomes the new last reliable position. The result is Impute of the input, and the slots then hold exactly the imputed pose. The vector returned is Normalize of the imputed pose. |
| Collector.DataCollector.Step | collector_logic.py:126-200 | A missing frame returns false and changes no field and no slot. A good frame adds one to the count. The pose model's result is used exactly when the new count is divisible by 2. The cache and smoother rules hold. A frame with a cached pose imputes the mean of the smoother. While recording it records the normalised vector. The dataset keeps its rows and gains at most one row, holding the full queue with the label last. |
| Collector.DataCollector.UpdateCache | collector_logic.py:141-148 | A detection replaces the cached keypoints, confidences and box. No detection clears only the cached keypoints. |
| Collector.DataCollector.ProcessCachedPose | collector_logic.py:151-161 | On an inference frame the cached pose is pushed into the 3-deep smoother. Between frames a cached pose implies a non-empty smoother. The last reliable pose becomes Impute(Mean(smoother), conf, prior). While recording, the queue and dataset advance by Record of the normalised pose. |
| Collector.DataCollector.RecordFrame | collector_logic.py:190-195 | The recording queue and the dataset advance exactly as Record describes. The queue stays within seqLength, and every row has seqLength*34+1 values. |
| Poses.Mean | collector_logic.py:160 | The elementwise mean of a non-empty buffer of poses gives one point per joint, 17 in all. MeanOfConstant and MeanWithinBounds describe its values. |
| Poses.Impute | collector_logic.py:115-120 | The imputed pose has one point per joint, 17 in all. ImputeIsStable and the per-joint ensures of DataCollector.PreprocessKeypoints describe its values. Each untrusted joint takes the prior's joint, and each trusted joint is kept. |
| Poses.MeanOfConstant | collector_logic.py:160 | The mean of a buffer holding one pose several times is that pose. |
| Poses.MeanWithinBounds | collector_logic.py:160 | Each smoothed joint lies within every axis-aligned box that contains all buffered samples of that joint. |
| Poses.ImputeIsStable | collector_logic.py:115-120 | Imputing the same input against the pose the first pass left gives that pose again. A frame that re-uses the cache therefore leaves the last reliable pose where it was. |
| Poses.Normalize | collector_logic.py:122-124 | Gives 34 values. Entries 2i and 2i+1 are joint i's x and y minus the hip midpoint. Normalised joints 11 and 12 sum to zero in x and in y. |
| Poses.NormalizeTranslationInvariant | collector_logic.py:122-123 | Shifting every joint by the same offset does not change the normalised vector. |
| Recording.Push | collector_logic.py:77-78 | Appending to a deque of maximum length n is plain append while it is short. When it is full, the oldest entry is dropped. It never exceeds n. With n = 0 it stays empty. |
| Recording.PushElements | collector_logic.py:77-78 | Every element after a push is the new one or was already in the deque. |
| Recording.PushKeepLast | collector_logic.py:77-78 | Pushing onto the last n elements of a history gives the last n of the extended history. |
| Recording.Flatten | collector_logic.py:193 | A window of k vectors of 34 values flattens to 34*k values. |
| Recording.FlattenAt | collector_logic.py:193 | Entry j of vector k sits at position 34*k + j of the flattened window. |
| Recording.Row | collector_logic.py:193-194 | A row has 34*|window| + 1 values, and its last value is the label. |
| Recording.RowAt | collector_logic.py:193-194 | Column 34*k + j of a row holds entry j of frame k of its window, before the label. |
| Recording.Record | collector_logic.py:190-195 | The queue becomes Push of the vector. A row is added exactly when the queue is then full, and the new row is Row of the queue. Earlier rows are kept. |
| Recording.RecordedBuffer | collector_logic.py:190-191 | After starting with an empty queue and recording frames vs, the queue holds the last seqLength of vs. |
| Recording.RecordedRowCount | collector_logic.py:192-195 | Recording n frames adds Windows(n, seqLength) rows, one per full window, and keeps the rows that were there. |
| Recording.RecordedRow | collector_logic.py:190-195 | The i-th row a recording adds holds frames i .. i+seqLength-1 of the recording, flattened in order, then the label. |
| Recording.SlidingWindow | collector_logic.py:189-195 | Combines RecordedRowCount and RecordedRow. The dataset keeps its old rows and gains one row per full window: the sliding windows of the recorded frames, in order, each labelled. |
| Columns.Decimal | collector_logic.py:106 | The rendering of an index is a non-empty string of digits with no leading zero. |
| Columns.DecimalRoundTrip | collector_logic.py:106 | Parsing the rendering of n gives n. |
| Columns.DecimalInjective | collector_logic.py:106 | Two indices have the same rendering if and only if they are equal. |
| Columns.ColumnNames | collector_logic.py:106 | There are seqLength*34 + 1 columns. Column i is "v" followed by i in decimal, and the last column is "label". |
| Columns.ColumnNamesDistinct | collector_logic.py:106 | No two columns share a name. |

## Left out

- The camera thread `ThreadedCamera` (collector_logic.py:27-59) is a background capture loop behind a lock. Its output is the `frameOk` parameter of `Step`. Concurrency is not modelled.
- The pose model (collector_logic.py:88, 142-146) is a neural network. Its result for the first person is the `detection` parameter. Its own confidence threshold (`conf=0.5` at line 142) and the tensor conversions are not modelled.
- Step: `process_frame` returns three values, and the one in the middle is the annotated frame. Step returns only the success flag and the dataset size. Resizing and drawing (collector_logic.py:133-134, 163-187, 197-198) and `SKELETON_CONNECTIONS` are presentation and are not modelled. `resize_width` and `resize_height` are left out with them.
- SaveCsv: writing the file (collector_logic.py:105, 107-112) is left out. That covers the timestamped file name, pandas' `to_csv`, the success message with the row count and the exception text of a failed write. SaveCsv returns the table the file would hold, and the empty case is the NoData error.
- The debug messages and the `model_path` and `camera_source` parameters of `__init__` (collector_logic.py:87-92) are I/O.
- `release` (collector_logic.py:202-203) only stops the camera thread.
- `undo_last_recording` is called by collector_gui.py:115 and collector_api.py:71. It is not defined in collector_logic.py, so there is nothing to model.
- Those callers unpack four values from `process_frame` (collector_gui.py:74, collector_api.py:80), while it returns three. The model keeps the three-value behaviour, minus the frame, and does not reconcile the callers.
- collector_gui.py (Tkinter), collector_api.py (HTTP endpoints and streaming) and main.py (start-up) are not part of this model.
- Coordinates and confidences are exact reals. numpy's float32/float64 rounding in the mean, the hip midpoint and the subtraction is not modelled. The `== 0` tests are exact comparisons.
- `seq_length` is a natural number. Python's `deque` rejects a negative `maxlen` with an error, which is not modelled. `seq_length = 0` is modelled as the code behaves: the queue stays empty and every recorded frame adds a row holding only the label.
- Recording.Row: the label is stored as `classLabel as real` in a row of reals. In the code, `seq_flat.append(self.current_label)` (collector_logic.py:194) appends a Python int to a list of floats, so the label column keeps its integer type. The model keeps the value but not the type.
- `skip_frames` is the module constant `SkipFrames = 2`. The code never changes it.
