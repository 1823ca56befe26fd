# Activity plugin: scene-level activity aggregation

A Dafny model of `ActivityPlugin` (python/plugins/activity.py), the video
analysis plugin that captions every frame and then reduces the whole video to
one `Activity`: a primary activity word, a confidence, and the three most
frequently detected objects.

- `wrappers.dfy` — `Option`, for absent record fields and the empty summary.
- `text.dfy` (module `Text`) — the caption heuristic: `" ".join(...).lower()`
  and the first match of `\b(\w+ing)\b`. The match is computed by scanning
  runs of word characters (`FirstMatch`) and is proved to be exactly the
  leftmost match in the sense of the regular expression (`MatchAt`). Because a
  space is not a word character, the first match of the joined text is the
  first match of the earliest caption that has one.
- `ranking.dfy` (module `Ranking`) — `Counter(labels).most_common(3)`: labels
  by non-increasing count, equal counts in first-occurrence order (the
  stable sort that `most_common` performs), at most three.
- `scene.dfy` (module `Scene`) — the `Activity` record and the reduction
  performed by `analyze_scene`: activity word, confidence `1/(1+d)` with `d`
  the number of distinct captions (an exact `real`), primary objects.
- `plugin.dfy` (module `Plugin`) — the frame record, the object threshold and
  the class `ActivityPlugin` with the fields the source mutates (`captions`,
  `frameObjects`, `activities`, and whether the model and the processor are
  loaded). `AnalyzeFrame` appends in place and loops over the frame's objects;
  `AnalyzeScene` overwrites `activities`; `GetResults` and `GetSummary` read.
  The object invariant `Valid()` says that `frameObjects` holds exactly the
  qualifying labels of every object read so far, that there is at most one
  activity, and none while no caption was collected.
- `examples.dfy` (module `Examples`) — concrete scenarios and two clients of
  the class that use only its contracts.

Behaviour worth knowing, as the code has it:

- The activity word is a maximal run of ASCII letters, digits and `_` of
  length at least four ending in "ing", not a whitespace-separated token: in
  "dogs swimming, fast" the word is "swimming".
- The confidence is at most 1/2: with every caption identical there is one
  distinct caption and the confidence is `1/(1+1)`.
- The only disabled mode is "model or processor not loaded"; `setup` either
  loads both or raises.
- `analyze_scene` never reads its argument and recomputes from the collected
  lists on every call, so repeating it with no new frames gives the same
  result; with no caption it returns without touching `activities`.

## Model

| member | source | states |
|---|---|---|
| `Text.RunEnd` | python/plugins/activity.py:69 | the end of a run of `\w` characters: every character before it is a word character and the one at it is not (or the text ends) |
| `Text.FirstMatch` | python/plugins/activity.py:69 | a span it returns is a match of `\b(\w+ing)\b`: word characters only, word boundaries on both sides, length at least four, suffix "ing" |
| `Text.FirstMatchIsLeftmost` | python/plugins/activity.py:69-72 | `FirstMatch` returns a span exactly when that span is a match and no match starts further left (the first element of `findall`) |
| `Text.FirstMatchNone` | python/plugins/activity.py:69-72 | `FirstMatch` returns nothing exactly when the text has no match at all |
| `Text.FirstIngWordAcrossSpace` | python/plugins/activity.py:65-69 | the first `-ing` word of `a + " " + b` is that of `a`, or, when `a` has none, that of `b`: no match spans the joining space |
| `Ranking.FirstOccurrencesSpec` | python/plugins/activity.py:78 | the counter's keys are exactly the labels, each once, in increasing order of first occurrence |
| `Ranking.BestIndex` | python/plugins/activity.py:79 | the selected candidate has the highest count, and every candidate before it has a strictly lower count |
| `Ranking.TopKSpec` | python/plugins/activity.py:79 | selection returns `min(k, candidates)` distinct candidates, each ranked before the next (higher count, or equal count and earlier first occurrence), and every candidate left out ranks after all of them |
| `Ranking.MostCommon3Spec` | python/plugins/activity.py:78-79 | `most_common(3)` gives at most three distinct labels drawn from the list, fewer only when there are fewer distinct labels, by non-increasing count with ties in first-occurrence order, and no label left out outranks one kept |
| `Scene.SceneActivity` | python/plugins/activity.py:64-87 | the scene activity has confidence in (0, 1/2] and at most three primary objects, all of them collected labels |
| `Scene.ChooseActivitySpec` | python/plugins/activity.py:65-72 | the activity is the text of the leftmost match in the lower-cased, space-joined captions, or the first caption verbatim when there is no match |
| `Scene.CaptionTextWord` | python/plugins/activity.py:65-69 | the first `-ing` word of the joined, lower-cased text equals the first `-ing` word of the captions taken one at a time |
| `Scene.ChooseActivityByCaption` | python/plugins/activity.py:65-72 | the activity is the lower-cased `-ing` word of the earliest caption that has one, otherwise the first caption |
| `Scene.DistinctCountBounds` | python/plugins/activity.py:75 | the number of distinct captions is at most the number of captions and at least one when there is a caption |
| `Scene.DistinctCountAllDifferent` | python/plugins/activity.py:75 | pairwise-different captions are all counted as distinct |
| `Scene.ConfidenceSpec` | python/plugins/activity.py:75 | the confidence lies in (0, 1/2], equals 1/2 exactly when all captions are identical, and equals 1/(1+n) when all n captions differ |
| `Plugin.QualifyingLabels` | python/plugins/activity.py:54-56 | the recorded labels are at most as many as the objects, each comes from an object with confidence above 0.4, and every such object's label is recorded |
| `Plugin.QualifyingLabelsAppend` | python/plugins/activity.py:54-56 | recording two object lists one after the other records their labels in encounter order, concatenated |
| `Plugin.ThresholdIsStrict` | python/plugins/activity.py:55 | an object at exactly 0.4, or with no confidence (default 0), is not recorded |
| `Plugin.ActivityPlugin.constructor` | python/plugins/activity.py:21-27 | a new plugin has empty lists, no activity, and neither model nor processor loaded (disabled) |
| `Plugin.ActivityPlugin.Setup` | python/plugins/activity.py:29-35 | after setup the model and processor are loaded and the plugin is enabled |
| `Plugin.ActivityPlugin.AnalyzeFrame` | python/plugins/activity.py:37-58 | disabled: the record is returned unchanged and no list changes; enabled: exactly the caption is appended, the record gets that caption as `activity_caption` and nothing else changes, and the frame's qualifying labels are appended in order (none when `objects` is absent) |
| `Plugin.ActivityPlugin.RecordObjects` | python/plugins/activity.py:54-56 | the loop appends exactly the qualifying labels of the objects, in order |
| `Plugin.ActivityPlugin.AnalyzeScene` | python/plugins/activity.py:60-87 | with no caption `activities` stays empty; otherwise it becomes exactly one scene activity computed from the collected captions and labels alone, never from the argument |
| `Plugin.ActivityPlugin.GetResults` | python/plugins/activity.py:89-90 | at most one result, and none while no caption was collected |
| `Plugin.ActivityPlugin.GetSummary` | python/plugins/activity.py:92-100 | no summary exactly when there is no result; otherwise the summary carries the result's confidence and primary objects, with `activity` renamed `primary_activity` |
| `Examples.MostCommon3Example` | python/plugins/activity.py:78-79 | labels `[a,b,a,c,b,a]` give primary objects `[a,b,c]` |
| `Examples.IdenticalCaptionsExample` | python/plugins/activity.py:65-75 | two identical captions "a dog running in park" give activity "running" and confidence 1/2 |
| `Examples.DistinctCaptionsExample` | python/plugins/activity.py:75 | three different captions give confidence 1/4 |
| `Examples.DisabledPlugin` | python/plugins/activity.py:37-40 | a plugin whose model never loaded returns the frame record unchanged, and afterwards reports no results and no summary |
| `Examples.SceneIsRepeatable` | python/plugins/activity.py:60-87 | a second `analyze_scene`, with a different argument and no new frames, leaves the same activities |

## Left out

- Loading the captioning model and processor (python/plugins/activity.py:29-35) and running them on the image (lines 42-48): `Setup` only marks both as loaded, and `AnalyzeFrame` receives the caption the model produced. The image and the `video_path` argument are therefore not parameters.
- Exceptions from loading or from inference: the source does not catch them, so they end the call; the model has no failure path for them.
- A qualifying object without a `"label"` key raises `KeyError` in the source; here every object has a label (`DetectedObject.name`).
- An `"objects"` key that is present but holds `None` (iterating it raises): `FrameAnalysis.objects` is either a list or absent.
- Unicode: `\w` and `str.lower()` are modelled over ASCII only; other characters count as non-word characters and are left as they are.
- Floating point: confidences and the 0.4 threshold are exact `real` numbers.
- The frame record is a string-keyed dictionary mutated in place and returned; the model keeps only its `objects` and `activity_caption` entries and returns the updated record as a value, so aliasing of the dictionary is not captured.
- `plugins.base` (the `AnalyzerPlugin` base class, `FrameAnalysis`, `PluginResult`) is not part of this model; `get_results` returns the `Activity` records themselves, whose fields are those of the exported dictionaries.
- apps/web/app/routes/auth.login.tsx is not part of this model: it is a login page route with no aggregation logic.
