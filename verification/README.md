# Volume preview: a Dafny model

This project models the core of a VS Code extension that previews 3-D volume
files (NRRD) in a webview:

- the host side: the document object with its dispose lifecycle, the
  provider's collection of open webview panels keyed by resource, the
  change fan-out, the two message handlers, the file-watcher refresh, and the
  quote escaping of the settings embedded in the page;
- the webview side: the file-name helpers (`basename`, `extname`,
  `isMeshSupport`), the bounding-box helpers used to frame a mesh, and the
  volume viewer's default configuration, min/max normalization of the
  samples, shader-parameter selection, mesh placement and initial camera.

Modules:

| file | module | what it holds |
|---|---|---|
| optional.dfy | `Optional` | `Option` |
| strings.dfy | `Strings` | reversal, the leading run without a character, JavaScript `split`, ASCII lower-casing |
| geometry.dfy | `Geometry` | exact 3-vectors and axis-aligned boxes |
| media_utils.dfy | `MediaUtils` | media/utils.js |
| volume_document.dfy | `VolumeDocument` | src/volumeDocument.ts |
| volume_provider.dfy | `VolumeProvider` | src/volumeProvider.ts |
| viewer.dfy | `Viewer` | media/viewer.js |

Conventions:

- Numbers are exact `real`s, not IEEE doubles.
- A resource (a `vscode.Uri`) is its string form (`uri.toString()`).
- A webview panel is an opaque number.
- Effects on the outside world are appended to logs, which the lemmas then
  count:
  - firing the dispose event;
  - releasing a disposable;
  - posting to a panel;
  - calling a response callback.
- A webview collection entry carries an identity (`handle`). The source's
  `Set` holds entry objects, so two `add` calls with the same resource and
  panel give two distinct entries. The dispose listener deletes exactly the
  object its own `add` created.

## Model

| member | source | states |
|---|---|---|
| MediaUtils.Basename | media/utils.js:1-6 | the result is the text after the last `/` (all of the url when it has none, empty when it ends in `/`) |
| MediaUtils.Extname | media/utils.js:8-10 | the result is the lower-cased text after the last `.`, contains no `.`, and is the whole lower-cased url when there is no `.` |
| MediaUtils.ExtnameOfSegment | media/utils.js:8-10 | the extension depends only on the last `.`-segment: any last segment determines it |
| MediaUtils.ExtnameOfLower | media/utils.js:8-10 | lower-casing the url first does not change its extension |
| MediaUtils.IsMeshSupport | media/utils.js:12-27 | a file is refused exactly when its extension is `xyz` or `pcd`; every other extension, listed or not, is accepted |
| MediaUtils.IsMeshSupportIgnoresCase | media/utils.js:12-27 | two names that agree up to case are accepted or refused alike |
| MediaUtils.UpperCasePointCloudRefused | media/utils.js:20-23 | `scan.XYZ` is refused |
| MediaUtils.UnknownExtensionAccepted | media/utils.js:24-25 | `volume.nrrd`, missing from the table, is accepted |
| MediaUtils.BBoxCenter | media/utils.js:38-46 | the centre is equally far from both corners on every axis, so it lies inside a box that is not inverted |
| MediaUtils.BBoxMaxExtent | media/utils.js:48-56 | the result is at least every extent and equal to one of them |
| MediaUtils.AutoCameraPos | media/utils.js:58-75 | on every axis the camera is the largest extent away from the centre, towards + when that axis has positive extent and towards - otherwise, a zero extent included |
| MediaUtils.AutoCameraEquidistant | media/utils.js:61-72 | the camera is equally far from the centre along all three axes |
| MediaUtils.AutoCameraOutsideBox | media/utils.js:58-75 | for a box with positive extent on every axis, the camera lies beyond the upper corner on every axis |
| MediaUtils.AutoCameraFlatAxis | media/utils.js:64-66 | a flat axis gets the negative direction |
| MediaUtils.AutoCameraExample | media/utils.js:58-75 | the box [0,4]^3 has centre (2,2,2) and camera (6,6,6) |
| Strings.Reverse | media/utils.js:2-4 | reversing keeps the length and puts element i at position length - 1 - i |
| Strings.PrefixWithout | media/utils.js:3 | the leading run is a prefix without the character, stopped only by that character or by the end |
| Strings.Split | media/utils.js:9 | `split` returns at least one piece, and no piece contains the separator |
| Strings.JoinSplit | media/utils.js:9 | joining the pieces with the separator gives the string back |
| Strings.SplitJoin | media/utils.js:9 | splitting joined separator-free pieces gives the pieces back |
| Strings.LastOfSplit | media/utils.js:9 | the last piece (`pop()`) is the text after the last separator |
| Strings.ToLower | media/utils.js:9 | lower-casing keeps the length and maps each character on its own |
| Strings.ToLowerIdempotent | media/utils.js:9 | lower-casing twice is lower-casing once |
| Strings.LastSegmentOfLower | media/utils.js:9 | lower-casing commutes with taking the last segment |
| VolumeDocument.Create | src/volumeDocument.ts:5-14 | a new document is live and owns exactly its dispose emitter and its change emitter, in that order |
| VolumeDocument.Register | src/volumeDocument.ts:25-32 | a live document appends the item to its list; a disposed one releases it at once; either way the item is returned and the event is not fired |
| VolumeDocument.Dispose | src/volumeDocument.ts:16-23 | the dispose event fires first and exactly once; the document ends disposed; it releases its whole list, in order, if it was live, and nothing otherwise |
| VolumeDocument.DisposeAll | src/volumeDocument.ts:22 | every listed item is released, in order, and nothing else happens |
| VolumeDocument.DisposeTwice | src/volumeDocument.ts:16-20 | a second `dispose()` only fires the event again and leaves the document as it is |
| VolumeDocument.DisposeNewDocument | src/volumeDocument.ts:10-23 | disposing a new document fires the event, then releases the dispose emitter, then the change emitter |
| VolumeDocument.RunAppend | src/volumeDocument.ts:16-32 | running two call sequences one after the other is running their concatenation |
| VolumeDocument.DisposedIsFinal | src/volumeDocument.ts:18-21 | a disposed document stays disposed whatever is called next |
| VolumeDocument.DisposedIsMonotone | src/volumeDocument.ts:18-21 | once disposed after some prefix of the calls, the document is disposed after all of them |
| VolumeDocument.DisposedAfterDisposeCall | src/volumeDocument.ts:21 | any call sequence that contains `dispose()` leaves the document disposed |
| VolumeDocument.EveryDisposeFires | src/volumeDocument.ts:17 | the dispose event fires exactly once per `dispose()` call, repeated calls included |
| VolumeDocument.ReleaseConservation | src/volumeDocument.ts:16-32 | over any call sequence, pending plus registered equals released plus still pending, counted with multiplicity: nothing is lost and nothing is released twice |
| VolumeDocument.EmittersReleasedOnce | src/volumeDocument.ts:10-23 | each emitter of a new document is released exactly once if `dispose()` was called, and never otherwise |
| VolumeDocument.NeverDisposed | src/volumeDocument.ts:16-32 | without a `dispose()` call a live document stays live and releases nothing |
| VolumeProvider.EmptyCollection | src/volumeProvider.ts:31 | the provider starts with an empty, well-formed collection |
| VolumeProvider.Get | src/volumeProvider.ts:224-231 | `get(uri)` yields each panel as often as an entry pairs it with the resource, and a panel is yielded exactly when some entry pairs it with the resource |
| VolumeProvider.MatchingAppend | src/volumeProvider.ts:224-231 | the panels of two concatenated entry lists are the panels of the first list followed by those of the second |
| VolumeProvider.Add | src/volumeProvider.ts:236-238 | `add` appends one entry with a fresh identity, and the collection stays well-formed |
| VolumeProvider.GetAfterAdd | src/volumeProvider.ts:224-238 | after `add(uri, panel)`, `get(uri)` yields the old panels and then `panel`; other resources are unaffected |
| VolumeProvider.AddTwice | src/volumeProvider.ts:236-238 | adding the same resource and panel twice registers the panel twice |
| VolumeProvider.Remove | src/volumeProvider.ts:240-242 | the dispose listener deletes the entry with its identity, and the collection stays well-formed |
| VolumeProvider.WithoutHandleAppend | src/volumeProvider.ts:240-242 | deleting by identity from two concatenated lists deletes from each list separately |
| VolumeProvider.WithoutHandleAround | src/volumeProvider.ts:240-242 | deleting an identity that only one entry holds removes that entry and keeps the others in order |
| VolumeProvider.RemoveDeletesOneEntry | src/volumeProvider.ts:240-242 | deleting an entry takes exactly that entry out and keeps the others in order |
| VolumeProvider.GetAfterRemove | src/volumeProvider.ts:224-242 | after a panel closes, `get` loses one occurrence of that panel under the entry's resource and is unchanged for every other resource |
| VolumeProvider.PostMessage | src/volumeProvider.ts:197-203 | exactly one `{type, body}` envelope is posted, to the given panel, and nothing else changes |
| VolumeProvider.OnMessage | src/volumeProvider.ts:205-212 | a callback is called exactly when the message is a `response` whose request id is in the table; it is called with the body; nothing is posted |
| VolumeProvider.OnReady | src/volumeProvider.ts:93-97 | `ready` posts exactly one `init` envelope with body `{}` to the sending panel; other messages post nothing |
| VolumeProvider.Receive | src/volumeProvider.ts:74-97 | a message reaches both listeners: it posts one `init` to the sender exactly when it is `ready`, and calls the callback stored under its request id, with the message body, exactly when it is a `response` with a stored id |
| VolumeProvider.FanOutChange | src/volumeProvider.ts:43-48 | a change posts one `update` envelope per panel that `get` yields, in that order, after the earlier posts |
| VolumeProvider.FanOutReachesRegisteredPanels | src/volumeProvider.ts:43-48 | a change reaches each panel once per registration under the document's resource, and no other panel |
| VolumeProvider.UpdatesCount | src/volumeProvider.ts:45-47 | the `update` posts to a panel number the times that panel is listed |
| VolumeProvider.FileChanged | src/volumeProvider.ts:88-90 | a watched file change posts the bare string `modelRefresh` to the watching panel |
| VolumeProvider.Apply | src/volumeProvider.ts:236-242 | every event keeps the collection well-formed (identities distinct and issued) |
| VolumeProvider.InitPerReady | src/volumeProvider.ts:93-97 | over any event sequence, the `init` posts to a panel grow by exactly the number of `ready` messages it sent: there is no de-duplication |
| VolumeProvider.InitPerStep | src/volumeProvider.ts:93-97 | one event adds an `init` post to a panel exactly when it is a `ready` from that panel |
| VolumeProvider.CallbacksAtMostOncePerResponse | src/volumeProvider.ts:195-212 | events never change the callback table and call at most one callback per `response` message |
| VolumeProvider.NoCallbacksNoInvocations | src/volumeProvider.ts:195-212 | with the table empty, as it is created and never filled, no callback is ever called |
| VolumeProvider.EscapeQuotes | src/volumeProvider.ts:116 | no `"` survives the escaping |
| VolumeProvider.EscapeLength | src/volumeProvider.ts:116 | each `"` grows by five characters and everything else is kept |
| VolumeProvider.EscapeRoundTrip | src/volumeProvider.ts:116 | for text without `&`, decoding `&quot;` gives the original text back |
| VolumeProvider.SettingsMeta | src/volumeProvider.ts:117 | the element is the fixed opening, the escaped settings with no quote left and five extra characters per quote, then the closing quote and bracket |
| VolumeProvider.SettingsAttributeIntact | src/volumeProvider.ts:116-117 | the `data-settings` attribute value runs to the end of the escaped settings, and decodes to the settings when they contain no `&` |
| Viewer.DefaultConfig | media/viewer.js:46-52 | the viewer starts in iso mode with threshold 0.15, window [0, 1] and the viridis map |
| Viewer.ColormapTexture | media/viewer.js:55-58 | of the keys the default and the GUI can set, `viridis` finds the viridis texture and `gray` the gray one; any other string is modelled as finding nothing |
| Viewer.RenderStyleCode | media/viewer.js:161-162 | the code is 0 exactly for `mip` and 1 for every other style |
| Viewer.UpdateUniforms | media/viewer.js:156-167 | the frame update writes the window (clim1, clim2), render style 0 for `mip` and 1 for any other style, the iso threshold and the configured colormap's texture, and leaves the samples and size alone |
| Viewer.LoadUniforms | media/viewer.js:208-223 | the load callback installs the samples and the size, then writes the same window, render-style code, threshold and texture as the frame update |
| Viewer.LoadAgreesWithFrameUpdate | media/viewer.js:214-223 | the load-time parameter writes equal a frame update over the new samples, so the first frame changes nothing |
| Viewer.ScanRange | media/viewer.js:176-182 | every sample lies between the running minimum and maximum; each is a sample or its sentinel; both are samples when the volume is non-empty and within the sentinels |
| Viewer.Rescale | media/viewer.js:184-187 | every sample becomes its distance from the minimum divided by the range |
| Viewer.Normalize | media/viewer.js:176-187 | the minimum and maximum are the running extremes of the sentinels and the samples; the range is zero exactly for a constant volume; otherwise every sample becomes its distance from the minimum over the range, lying in [0, 1], 0 exactly at the minimum and 1 exactly at the maximum, order kept |
| Viewer.BoxGeometry | media/viewer.js:226-230 | a box geometry is centred at the origin with the given size |
| Viewer.VolumeMesh | media/viewer.js:226-235 | the translated mesh spans [-0.5, length - 0.5] on every axis |
| Viewer.VolumeMeshCentre | media/viewer.js:226-235 | the mesh is centred on the middle voxel and keeps the volume's size |
| Viewer.InitCamera | media/viewer.js:113-127 | the controls orbit the centre of [0, size]; the camera sits one volume height above it along +y, with -z up |
| Viewer.CameraTargetOffsetFromMesh | media/viewer.js:113-127 | the orbit target is half a voxel beyond the mesh centre on every axis |
| Viewer.OnVolumeLoaded | media/viewer.js:174-241 | a non-constant volume is loaded with each sample rescaled by the running minimum and maximum of the sentinels and the samples into [0, 1] (0 exactly at the minimum, 1 exactly at the maximum, both attained when the samples lie within the sentinels, order kept); the size, shader parameters, mesh [-0.5, length - 0.5] and initial camera are those of the configuration and size |

## Left out

- `createModelLoader` (media/utils.js:29-36) returns a three.js loader object, a new `NRRDLoader` in both branches; loaders are outside the model.
- `register`, `getMediaWebviewUri`, `getScripts` and `getHtmlForWebview` in src/volumeProvider.ts build VS Code registrations, URIs and HTML text; only the settings `<meta>` element is modelled.
- `getSettings` reads configuration and calls `JSON.stringify`; the model takes the serialized settings text as a parameter.
- The hot-reload watcher's creation condition (src/volumeProvider.ts:78-87) reads the URI scheme and configuration; the model takes a watched panel as a given event.
- The listener disposal on document dispose (src/volumeProvider.ts:51-53) is VS Code event plumbing. After dispose the change emitter is released, so no further change events arise anyway.
- `disposeAll` and `getNonce` live in src/utils.ts, which is not part of this model. `VolumeDocument.DisposeAll` releases every item front to back.
- Every `await`, the cancellation tokens, and the order in which VS Code delivers events are out of scope; a session is a given sequence of events.
- The viewer's constructor parts that only drive three.js, dat.GUI, Stats and the DOM are left out: renderer, scene, fog, light, GUI, resize handling, the animation loop, `JSON.parse` of the settings, and texture creation (media/viewer.js:195-205).
- `NRRDLoader` parsing is left out; a loaded volume is its samples and its three lengths.
- Viewer.ColormapTexture: the texture table is a plain object, so keys such as `toString` or `constructor` would find inherited members; the model treats every key but `viridis` and `gray` as finding nothing, since only those two are ever set (media/viewer.js:51, 68-71).
- VolumeProvider.OnReady: message types are modelled as strings compared by string equality; the loose `==` coercion of the `ready` test (src/volumeProvider.ts:94), under which a non-string type such as `["ready"]` also gets an `init`, is not modelled (`VolumeProvider.Receive` and `VolumeProvider.InitPerReady` inherit this). The `response` test is a strict `switch` and matches the model.
- Strings.ToLower: lower-cases ASCII letters only, where JavaScript's `toLowerCase` maps all of Unicode.
- Viewer.Normalize: for a constant volume the source divides zero by zero and fills the texture with NaN; the model returns `ZeroRange` (and `Viewer.OnVolumeLoaded` returns `ConstantVolume`), because real division by zero has no value.
- Viewer.Rescale: requires a non-zero range, which the source does not check; the zero case is handled by `Viewer.Normalize` before the call.
- Viewer.ScanRange: samples are exact reals, so NaN samples and float rounding are not modelled; the sentinels 1e20 and -1e20 are exact.
- VolumeProvider.EscapeRoundTrip: requires text without `&`, because the source escapes only `"`, so a literal `&quot;` in the settings would read back as a quote.
- VolumeProvider.OnMessage: the response callback is recorded as an invocation with its argument; what a callback does is not modelled. The source never stores a callback (see `VolumeProvider.NoCallbacksNoInvocations`).
- Firing an event emitter after it has been released (the second `dispose()` fires a disposed emitter) is recorded as a plain `FireDidDispose` effect; the emitter's own behaviour is VS Code's.
