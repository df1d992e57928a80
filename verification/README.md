# Posture monitor: movement classifier, alert gate and scrolling display

This project models two pieces of sequential logic from a posture monitor, and proves properties about them. The monitor watches a person through a camera and raises movement alerts: fidgeting hands, swaying hips, swinging legs, and a head held still for too long. It also scrolls received text across a 16-character LCD.

1. **The per-frame movement classifier of the human detector.** It keeps four bounded histories of 2-D landmark samples: right wrist, hip midpoint, ankle midpoint and nose tip. Each history is a `deque(maxlen=10)`. Once a history holds more than five samples, its movement reading is the mean distance between adjacent samples. Each reading is compared with a fixed threshold:

   | signal | fires when | code sent | alert |
   |---|---|---|---|
   | hand | reading > 0.01 | `FIDGETING_HANDS` | "Stop fidgeting hands" |
   | hip | reading > 0.005 | `STOP_SWAYING` | "Stop swaying" |
   | leg | reading > 0.005 | `SWINGING_LEGS` | "Stop swinging legs" |
   | head | reading < 0.003 for more than 5 s | `MOVE_HEAD` | "Move your head" |

   The leg check runs only while both ankles have visibility above 0.6. Otherwise the leg history is emptied. The head check uses a stillness timer.

   A triggering check sends its code at once, on every triggering frame, and overwrites the frame's single alert slot. After all four checks, the frame's alert goes to `send_alert`. That function records an alert only when the message differs from the last recorded one **and** more than 5 s have passed since then.

   The source is a top-level `while True` script with module globals. Here it is recast as a pure `Detector.Step(dist, state, observation, now)`:
   - `State` holds the four histories, the stillness timer and the gate's memory.
   - Step returns the new state, the frame's alert, the codes sent, and the message the gate recorded, if any.
   - `Session.Run` folds Step over a stream of frames.

2. **One pass of the scrolling LCD display.** `LCDService.display` shows `message[i:i+16]` for `i` in `range(len(message) - 16 + 1)`, clearing the screen before each write. `Lcd.Frames` gives the windows of one pass. `Lcd.DisplayOnce` gives the clear/write operations it issues.

Modules:
- `Wrappers` (wrappers.dfy): `Option`.
- `History` (history.dfy): the bounded history and the movement reading.
- `Detector` (detector.dfy): the state, the checks, the gate and `Step`.
- `DetectorProps` (detector_props.dfy): one frame's properties, stated against `Fired`, a separate declarative list of the checks that trigger.
- `Session` (session.dfy): runs of many frames.
- `Lcd` (lcd.dfy): the display pass.

Three facts about the code that the model keeps:
- `send_alert` joins its two conditions with `and` (Controllers/HumanDetector.py:33). A repeat of the last recorded message is therefore never recorded, and within 5 s of a recorded alert nothing is recorded, not even a different message. See `DetectorProps.RepeatNeverRecorded` and `DetectorProps.CooldownSuppressesAll`.
- A check sends its code on every frame on which it triggers, before the gate runs and whatever the gate decides (Controllers/HumanDetector.py:74-75, 86-87, 100-101, 119-120). See `DetectorProps.CommandsBypassGate`.
- The leg history is cleared as soon as either ankle has visibility 0.6 or less (Controllers/HumanDetector.py:94, 103-104). See `DetectorProps.HistoriesAfterStep`.

## Model

| member | source | states |
|---|---|---|
| History.Push | Controllers/HumanDetector.py:22-25 | Appending keeps at most 10 samples, with the new sample last. Below capacity it is a plain append. At capacity exactly the oldest sample is dropped and the rest stay in order. From any history of 10 or more samples it keeps the last nine, in order, followed by the new one. |
| History.PushAllKeepsLatest | Controllers/HumanDetector.py:22-25 | A bounded history fed any stream holds exactly the most recent 10 samples of everything it has seen, in order. |
| History.Midpoint | Controllers/HumanDetector.py:81 | The hip (and ankle) sample is the coordinate-wise average: equally far from both landmarks on each axis. |
| History.MeanDelta | Controllers/HumanDetector.py:72-73 | The movement reading of a history of two or more samples lies between its smallest and its largest adjacent-sample distance: some step is at most the reading and some step is at least it. |
| History.MeanDeltaAtMost | Controllers/HumanDetector.py:72-73 | The movement reading (mean of adjacent-sample distances) is at most any bound on every adjacent distance. |
| History.MeanDeltaAtLeast | Controllers/HumanDetector.py:72-73 | The movement reading is at least any lower bound on every adjacent distance. |
| History.MeanDeltaNonNegative | Controllers/HumanDetector.py:72-73 | With a non-negative distance, the reading is non-negative. |
| History.CalmNotMoving | Controllers/HumanDetector.py:71-73 | A history none of whose adjacent-sample distances exceeds a threshold never counts as moving past it. |
| History.SteadyNotStill | Controllers/HumanDetector.py:111-115 | A history none of whose adjacent-sample distances falls below a threshold never counts as still below it. |
| Detector.SendAlert | Controllers/HumanDetector.py:30-36 | If the message differs from the last one and more than 5 s have passed, the message and time are recorded. Otherwise the state is unchanged. Nothing but the gate's memory ever changes. |
| Detector.HandCheck | Controllers/HumanDetector.py:68-76 | Appends the wrist sample. At most it sends `FIDGETING_HANDS` and takes the alert slot. It touches nothing else. |
| Detector.HipCheck | Controllers/HumanDetector.py:78-88 | Appends the given hip sample. At most it sends `STOP_SWAYING` and takes the alert slot. It touches nothing else. |
| Detector.LegCheck | Controllers/HumanDetector.py:90-104 | With both ankles at visibility above 0.6 it appends the ankle midpoint to the leg history. With an ankle at visibility 0.6 or less it empties the leg history and sends nothing. At most it sends `SWINGING_LEGS` and takes the alert slot. It touches no other history. |
| Detector.HeadCheck | Controllers/HumanDetector.py:107-123 | Appends the nose sample. It changes only the head history and the timer. At most it sends `MOVE_HEAD` and takes the alert slot. |
| Detector.Gate | Controllers/HumanDetector.py:126-127 | With no frame alert, nothing changes. With a frame alert, the gate's memory is updated as `send_alert` does, and the alert is recorded exactly when the gate admits it. The codes sent and the alert slot are kept. |
| Detector.Classify | Controllers/HumanDetector.py:52-123 | The four checks keep histories bounded and send at most four codes. There is an alert exactly when some code was sent. The gate's memory is untouched. |
| Detector.Step | Controllers/HumanDetector.py:52-127 | A frame keeps histories bounded and sends at most four codes. There is an alert iff a code was sent. The frame's alert is recorded exactly when there is one and the gate admits it against the state before the frame. A recorded alert becomes the gate's memory with time `now`. With nothing recorded, the memory is unchanged. |
| DetectorProps.ChecksTrace | Controllers/HumanDetector.py:68-123 | With pose landmarks, the four checks append exactly the codes of the triggering checks, in order, and leave the alert slot with the message of the last of them. |
| DetectorProps.FrameTrace | Controllers/HumanDetector.py:52-127 | The codes sent are exactly the triggering checks in hand, hip, leg, head order. The frame's alert is the message of the last of them, or none. |
| DetectorProps.SentIffFires | Controllers/HumanDetector.py:71-123 | A signal's code is sent iff its check triggers, per the declarative description `Fires`. |
| DetectorProps.NoVerdictWithoutReading | Controllers/HumanDetector.py:71-113 | A check whose history holds at most five samples after the append sends nothing and does not own the frame alert. For the head, the timer is not moved either. |
| DetectorProps.CalmSignalsSendNothing | Controllers/HumanDetector.py:71-123 | When no step of a history after the append exceeds its threshold, that check sends nothing and does not own the alert. For the head, the same holds when no step is below 0.003. |
| DetectorProps.HistoriesAfterStep | Controllers/HumanDetector.py:69-109 | Which sample each history receives in a frame with pose landmarks. The leg history is emptied, with no leg code and no leg alert, unless both ankles have visibility above 0.6. The head history and timer are untouched when no face is found. |
| DetectorProps.AlertNamesFired | Controllers/HumanDetector.py:52-121 | The frame alert, when it is a signal's message, belongs to a check that triggered. |
| DetectorProps.HeadTimer | Controllers/HumanDetector.py:111-123 | A still frame with no timer starts it at `now` without alerting. A still frame with the timer running sends `MOVE_HEAD` iff more than 5 s have passed. A frame with reading at or above 0.003 stops the timer and sends nothing. |
| DetectorProps.NoPoseNoEffect | Controllers/HumanDetector.py:52-54 | Without pose landmarks a frame sends nothing, alerts nothing and changes no state. |
| DetectorProps.CommandsBypassGate | Controllers/HumanDetector.py:71-127 | The codes sent and the frame's alert do not depend on the gate's memory. |
| DetectorProps.InitialGate | Controllers/HumanDetector.py:22-28 | A session starts with four empty histories and no stillness timer. Its first alert is admitted exactly when the message is not empty and the clock reads more than 5 s. |
| DetectorProps.RepeatNeverRecorded | Controllers/HumanDetector.py:33 | Offering the last recorded message again never records it, however much time has passed. |
| DetectorProps.CooldownSuppressesAll | Controllers/HumanDetector.py:33 | Within 5 s of the last recorded alert, no message is recorded, not even a different one. |
| DetectorProps.RecordedOnce | Controllers/HumanDetector.py:33-36 | Once a message is recorded, offering it again at any later time changes nothing. |
| Session.Run | Controllers/HumanDetector.py:41-127 | Over a stream of n frames, at most n alerts are recorded and at most 4n codes are sent. An empty stream leaves the state as it was. |
| Session.RunSendsFired | Controllers/HumanDetector.py:41-127 | Each frame of a session adds to the sent-code trace exactly the codes of the checks that trigger on it, in hand, hip, leg, head order, and adds to the log exactly the alert the gate records on it. The state after the frame is the state `Detector.Step` produces from the state before it, so histories, the stillness timer and the gate's memory carry over from frame to frame. |
| Session.RunLogSpaced | Controllers/HumanDetector.py:26-36 | Over any stream of frames, consecutive recorded alerts have different messages and are more than 5 s apart. The gate's memory is always the last recorded alert. |
| Session.RunBounded | Controllers/HumanDetector.py:22-25 | Over any stream of frames, every history stays within its capacity of 10. |
| Lcd.Frames | Services/LCDService.py:12-14 | A message shorter than 16 gives no frames. Otherwise it gives `len - 15` frames, and frame `i` is `message[i:i+16]`. |
| Lcd.FrameWidth | Services/LCDService.py:12-14 | Every frame has exactly 16 characters. |
| Lcd.ExactWidthOneFrame | Services/LCDService.py:12-14 | A 16-character message gives exactly one frame: the message itself. |
| Lcd.FramesOverlap | Services/LCDService.py:12-14 | The last 15 characters of frame `i` are the first 15 of frame `i+1`. |
| Lcd.FramesCoverMessage | Services/LCDService.py:12-14 | The first frame starts the message and the last frame ends it. |
| Lcd.DisplayOnce | Services/LCDService.py:10-18 | One pass issues two operations per frame, in frame order: a clear, then a write of that frame. |
| Lcd.WritesFollowClears | Services/LCDService.py:13-14 | Every write of a pass is immediately preceded by a clear and writes a frame of the message. |

## Left out

- Perception is not modelled: MediaPipe pose and face models, OpenCV capture, the bounding-box drawing, `imshow` and `waitKey` (Controllers/HumanDetector.py:14-19, 39-50, 57-65, 129-134). Landmarks arrive as an `Observation`: optional pose landmarks and the optional nose tip of the first face.
- Floating-point numerics are not modelled. Coordinates are reals. `np.linalg.norm` is a distance parameter `dist`, and `np.mean` is the exact real mean. Properties needing a non-negative distance say so.
- Time is a parameter: one `now` per frame. The source calls `time()` separately in `send_alert` and twice in the head check. These readings are taken to be equal.
- Sockets are not modelled. `SocketSender.send_command` is an entry appended to the sent-code trace. A failed connection, which in the source raises and ends the script, is not modelled. `Sockets/SocketReceiver.py`, which passes received text to the display, is not part of this model.
- The `print` in `send_alert` is the `emitted` field of a frame's outcome. Logging elsewhere is dropped.
- The camera layer (`Services/CameraService.py`, `Controllers/CameraController.py`), the LED wrapper (`Services/LEDService.py`) and the one-line driver `Controllers/LCDController.py` are device I/O and are not part of this model.
- LCD hardware is not modelled: `CharLCD` construction and its initial clear, the `sleep(delay)` between frames, and the endless repetition when `loop=True`. `Lcd.DisplayOnce` models one pass, as with `loop=False`.
