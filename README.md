# Videoflix media pipeline and account logic, modelled in Dafny

This project models the back end of Videoflix, a video-streaming service built on Django. It covers six parts:

- **The HLS transcode task** (`convert_video_to_hls`). It marks a video as processing and saves it. It then runs the external encoder once per rung of a fixed three-rung resolution ladder (480p, 720p, 1080p), setting a rung's availability flag when its encoder exits with 0. Finally it saves the video with a fixed `hls_path`, `is_processing` cleared and `processing_complete` set. An exception outside the per-rung handler re-reads the record and saves only `is_processing = False`.
- **The thumbnail task** (`generate_thumbnail`). It extracts one frame into `videos/thumbnails/video_<id>_thumb.jpg` and stores that relative name on success.
- **The artifact path layout** both tasks write, built with POSIX `os.path.join` and the decimal rendering of the id.
- **The two HLS retrieval views.** They pick a path from `hls_path`, or from a fallback layout when it is empty. They answer "Video not found", a file-not-found error, an internal error, or the file with the media type of RFC 8216 section 4 (`application/vnd.apple.mpegurl`) or `video/MP2T`.
- **The thumbnail URL** the video listing returns.
- **The account side:**
  - where `authenticate` takes the raw access token from (the `Authorization` header split on whitespace, else the `access_token` cookie);
  - the serializer checks for registration, login and password-reset confirmation;
  - the registration, activation, password-reset and logout views.

**Modules:**

- `PathLayout` (`paths.dfy`): `os.path.join`, the id rendering and its inverse, `relpath`, and the artifact layout.
- `Videos` (`videos.dfy`):
  - the video row;
  - the ORM instance, `class Video`, whose fields the tasks mutate;
  - a `class Backend` that holds the video table and the ordered log of external effects (saves and encoder runs).
- `Tasks` (`tasks.dfy`): both tasks. They are imperative methods on the `Backend`, each proved against a specification function of the table before the run, and the lemmas state what those functions promise.
- `Streaming` (`streaming.dfy`): the two retrieval views.
- `VideoSerializer` (`video_serializer.dfy`): the thumbnail URL.
- `Authentication` (`authentication.dfy`): `get_raw_token` and `authenticate`.
- `AccountSerializers` (`account_serializers.dfy`): the three `validate` methods and `create`.
- `AccountViews` (`account_views.dfy`): the account views. The views that change stored state are methods of `class AccountStore`, which holds the user and profile tables. Each is proved against a specification function.
- `Wrappers` (`wrappers.dfy`): `Option`.

**Collaborators passed in as values.** The encoder, token validation, the token generator, uid decoding, refresh-token blacklisting, the storage URL and the request's `build_absolute_uri` are all inputs. Each encoder run is an `Outcome`: `Exited(code)` or `Raised`.

**What the code does where a reader might expect otherwise** (the model follows the code):

- **Per-rung persistence.** A successful rung is not persisted at once. The code sets the flags in memory and persists them only in one final `video.save()`, which writes the whole record (`videoflix_app/tasks.py:54-72`).
- **Flags lost on an outer exception.** An exception after the ladder (in the final save) loses the flags, because the handler re-reads the row.
- **Reset state.** An outer exception does not reset the video to an idle state. The code only saves `is_processing = False`, and leaves `processing_complete` as it was (`videoflix_app/tasks.py:80-83`).
- **Field-level writes.** There are no field-level partial writes. The code's `save()` calls write every field, so `Backend.Save` writes the whole row.
- **Missing model fields.** The `Video` model in the repository lacks the fields the tasks use. The row type is built from what `tasks.py` reads and writes.

## Model

| member | source | states |
|---|---|---|
| PathLayout.JoinAppend | videoflix_app/tasks.py:37-49 | joining in two calls equals joining all components once, so a file joined onto a rendition directory is the one-call join |
| PathLayout.JoinClean | videoflix_app/tasks.py:24 | joining clean relative components is the root, one separator and the components separated by single slashes |
| PathLayout.Join | videoflix_app/tasks.py:24 | `os.path.join` as a left fold of the POSIX join step; it has no contract of its own, its properties are JoinAppend, JoinClean, JoinAbsolute and Streaming.JoinExtends |
| PathLayout.JoinAbsolute | videoflix_app/tasks.py:24 | an absolute component discards everything joined before it |
| PathLayout.RelPath | videoflix_app/tasks.py:111 | the result is what follows the start directory (with its separator) in the path |
| PathLayout.DecimalValueOfNatStr | videoflix_app/tasks.py:24 | parsing the decimal rendering of an id gives the id back (round trip of `f'{video_id}'`) |
| PathLayout.NatStrInjective | videoflix_app/tasks.py:24 | distinct ids render to distinct decimal strings |
| PathLayout.HlsOutputDir | videoflix_app/tasks.py:24 | the output directory is the media root followed by the `hls_path` value `videos/hls/video_<id>` stored at line 69 |
| PathLayout.RenditionDir | videoflix_app/tasks.py:37 | one component below the output directory; its layout is stated by RenditionDirLayout |
| PathLayout.ThumbnailPath | videoflix_app/tasks.py:95-98 | the thumbnail file is the media root followed by the stored name `videos/thumbnails/video_<id>_thumb.jpg` |
| PathLayout.HlsOutputDirLayout | videoflix_app/tasks.py:24 | the HLS output directory is `<root>/videos/hls/video_<id>`, i.e. the media root joined with the `hls_path` value stored at line 69 |
| PathLayout.RenditionDirLayout | videoflix_app/tasks.py:37-49 | a rendition directory is `<root>/videos/hls/video_<id>/<name>`, and the playlist and segment pattern land directly inside it |
| PathLayout.HlsDirsDisjoint | videoflix_app/tasks.py:24 | distinct ids give distinct HLS directories, neither inside the other |
| PathLayout.ThumbnailPathsDistinct | videoflix_app/tasks.py:98 | distinct ids give distinct thumbnail files and distinct stored names |
| PathLayout.ThumbnailLayout | videoflix_app/tasks.py:95-112 | the thumbnail file is `<root>/videos/thumbnails/video_<id>_thumb.jpg`; `relpath` against the media root gives `videos/thumbnails/video_<id>_thumb.jpg` for every root, the empty one (the working directory) included |
| Videos.SetFlag | videoflix_app/tasks.py:54-60 | the `if/elif` chain sets exactly the flag named by the rendition, no other flag and no other field; an unknown name changes nothing |
| Videos.Video.MarkAvailable | videoflix_app/tasks.py:55-60 | the instance's fields become SetFlag of the old ones |
| Videos.Backend.Get | videoflix_app/tasks.py:15 | a fresh instance holding the stored row, or null exactly when the id is absent (DoesNotExist) |
| Videos.Backend.Save | videoflix_app/tasks.py:21 | the whole row of the instance is written and one save is logged |
| Videos.Backend.RunEncoder | videoflix_app/tasks.py:52 | the table is unchanged and one encoder run with its argument list and outcome is logged |
| Tasks.InputPath | videoflix_app/tasks.py:27 | the source file is the stored name under the media root, or the stored name itself when it is absolute |
| Tasks.HlsCommand | videoflix_app/tasks.py:40-50 | the encoder argument list of one rung; no contract of its own, what it names is stated by LadderEffects, ManifestAfterTranscode and RenditionDirLayout |
| Tasks.ThumbnailCommand | videoflix_app/tasks.py:100-106 | the encoder argument list of the thumbnail; no contract of its own, its output argument is stated by ThumbnailStoredPath |
| Tasks.TranscodeVideos | videoflix_app/tasks.py:14-85 | the transcode task keeps the set of records and changes no record but its own |
| Tasks.ApplyRungs | videoflix_app/tasks.py:35-67 | walking the ladder changes only the three availability flags |
| Tasks.ApplyRungsFlag | videoflix_app/tasks.py:35-67 | after the loop a flag is set iff it was set before or some rung of that name exited with 0; no failure stops later rungs and nothing is cleared |
| Tasks.EncodeRung | videoflix_app/tasks.py:36-67 | one loop pass logs the rung's encoder command and sets the rung's flag exactly on exit 0 |
| Tasks.EncodeLadder | videoflix_app/tasks.py:35-67 | the loop leaves the instance at ApplyRungs of its old row and logs the rung commands in ladder order; the table is not written |
| Tasks.ResetProcessing | videoflix_app/tasks.py:78-85 | the outer handler re-reads the row and saves it with only `is_processing` cleared; a missing row or a failing save changes nothing |
| Tasks.ConvertVideoToHls | videoflix_app/tasks.py:9-85 | the table and the effect log after the task are TranscodeVideos and TranscodeEffects of the table before it |
| Tasks.Run | videoflix_app/tasks.py:20-85 | a run on a video with a source leaves its row at TranscodeRow and logs RunEffects |
| Tasks.FirstSaveRaises | videoflix_app/tasks.py:78-85 | when the first save raises, the handler saves the row as loaded with `is_processing` cleared (or nothing, when that save fails too) |
| Tasks.RunAfterStart | videoflix_app/tasks.py:23-85 | after the first save, a setup exception goes to the handler; otherwise the ladder and the final save run |
| Tasks.EncodeAndFinish | videoflix_app/tasks.py:35-85 | the ladder, then the final save of flags, `hls_path`, not processing and complete, or the handler's save when the final save raises |
| Tasks.TranscodeFlag | videoflix_app/tasks.py:54-72 | after a run without an outer exception, rung k's flag is set iff it was set before or rung k's encoder exited with 0 |
| Tasks.TranscodeCompletes | videoflix_app/tasks.py:69-72 | a run without an outer exception always ends with `hls_path = videos/hls/video_<id>`, not processing and complete, whatever the outcomes; source, thumbnail fields and other records are kept |
| Tasks.PartialFailure | videoflix_app/tasks.py:35-72 | with 480p succeeding, 720p exiting 1 and 1080p raising, 480p is available, the other flags are as before, and the video is complete |
| Tasks.FlagsNeverCleared | videoflix_app/tasks.py:54-85 | a flag set before a run is still set after it, whatever the outcomes and faults |
| Tasks.OuterFaultResetsOnlyProcessing | videoflix_app/tasks.py:76-85 | after an outer exception the row is the one before the run with only `is_processing` cleared (flags from this run are lost, `processing_complete` untouched); when the recovery save fails, `is_processing` stays as the first save left it |
| Tasks.NoSourceNoChange | videoflix_app/tasks.py:14-18 | without a record or a source file neither task changes the table or has any effect (the thumbnail task's check is lines 89-92) |
| Tasks.LadderEffects | videoflix_app/tasks.py:29-52 | the ladder runs the encoder exactly three times, for 480p, 720p and 1080p in that order, each with its scale, bitrate and output directory |
| Tasks.TranscodeTrace | videoflix_app/tasks.py:20-72 | a run past its setup first saves the row with `is_processing` set, then runs the three encodes, then makes the final save (or the recovery save) |
| Tasks.NoEncodingBeforeStart | videoflix_app/tasks.py:20-27 | an outer exception before the ladder means no encoder run at all |
| Tasks.GenerateThumbnail | videoflix_app/tasks.py:87-119 | the table and the effect log after the task are ThumbnailVideos and ThumbnailEffects of the table before it |
| Tasks.StoreThumbnail | videoflix_app/tasks.py:110-113 | after exit 0 the record's `thumbnail_image` becomes `videos/thumbnails/video_<id>_thumb.jpg` and is saved, or the table and log stay as they were when the save raises |
| Tasks.ThumbnailVideos | videoflix_app/tasks.py:87-119 | the thumbnail task keeps the set of records, changes no other record, and changes only `thumbnail_image` of its own |
| Tasks.ThumbnailOnlyOnSuccess | videoflix_app/tasks.py:108-116 | the table changes only on exit 0, and then only `thumbnail_image` of that record, to `videos/thumbnails/video_<id>_thumb.jpg` |
| Tasks.ThumbnailIdempotent | videoflix_app/tasks.py:98-113 | after a stored thumbnail, another run leaves the table as it is, whatever the encoder does |
| Tasks.ThumbnailStoredPath | videoflix_app/tasks.py:98-112 | the stored name joined onto the media root is the output file named in the encoder command |
| Streaming.Status | videoflix_app/api/views.py:63-87 | the status is 200, 404 or 500, and 200 exactly for content |
| Streaming.Serve | videoflix_app/api/views.py:62-76 | content iff the path exists and reads, with its bytes and the given type; not found iff the path is absent, with the given message |
| Streaming.ManifestGet | videoflix_app/api/views.py:39-87 | an unknown id gives "Video not found"; content is always a playlist |
| Streaming.SegmentGet | videoflix_app/api/views.py:98-146 | an unknown id gives "Video not found"; content is always `video/MP2T` |
| Streaming.LookupBeforeFile | videoflix_app/api/views.py:40-82 | without a record the answer does not depend on the files |
| Streaming.ManifestOutcomes | videoflix_app/api/views.py:62-87 | content iff record, file and read all succeed; "Video manifest not found" iff the record exists and the file does not; status 404 iff the record or the file is missing, 500 iff the read fails |
| Streaming.SegmentOutcomes | videoflix_app/api/views.py:121-146 | content iff record, file and read all succeed; "Video segment not found" iff the record exists and the file does not; status 404 iff the record or the file is missing, 500 iff the read fails |
| Streaming.StreamPath | videoflix_app/api/views.py:45-60 | the path both views read; no contract of its own, its layout is stated by SegmentBesideManifest, ReadsTaskOutput and FallbackLayout |
| Streaming.ManifestPath | videoflix_app/api/views.py:45-60 | the playlist path is the stream path of `index.m3u8`; no contract of its own, see SegmentBesideManifest and ManifestAfterTranscode |
| Streaming.SegmentBesideManifest | videoflix_app/api/views.py:104-119 | segments are looked up in the playlist's directory, any resolution and segment string joined in unchecked |
| Streaming.ReadsTaskOutput | videoflix_app/api/views.py:45-51 | with the stored `hls_path` the views read the files in the rendition directory the transcode task writes |
| Streaming.ManifestAfterTranscode | videoflix_app/api/views.py:45-51 | after a transcode run, the manifest path for any ladder rung is the playlist path in that rung's encoder command |
| Streaming.FallbackLayout | videoflix_app/api/views.py:54-60 | the fallback path is `<root>/videos/video_<id>` joined with the resolution and the file name |
| Streaming.FallbackMissesTaskOutput | videoflix_app/api/views.py:52-60 | the fallback path never lies in any HLS directory the transcode task writes |
| VideoSerializer.ThumbnailUrl | videoflix_app/api/serializers.py:16-24 | with an image: the request's absolute URI of its URL, or the local origin plus its URL without a request; without one: the `thumbnail_url` column |
| VideoSerializer.ImageTakesPrecedence | videoflix_app/api/serializers.py:18-21 | with an image the `thumbnail_url` column plays no part |
| VideoSerializer.NoImageIgnoresRequest | videoflix_app/api/serializers.py:24 | without an image the request and storage play no part |
| VideoSerializer.UrlAfterThumbnail | videoflix_app/api/serializers.py:22-23 | after the thumbnail task stored its frame, a listing without request points at `http://127.0.0.1:8000` plus the URL of `videos/thumbnails/video_<id>_thumb.jpg` |
| Authentication.Word | auth_app/authentication.py:40 | the longest whitespace-free prefix |
| Authentication.Split | auth_app/authentication.py:40 | `bytes.split()` yields non-empty parts without whitespace |
| Authentication.Lower | auth_app/authentication.py:50 | `bytes.lower()` maps exactly the ASCII capitals, byte by byte |
| Authentication.SplitJoinSpaced | auth_app/authentication.py:40 | splitting words joined by single spaces gives the words back |
| Authentication.SplitInterleave | auth_app/authentication.py:40 | words separated by any non-empty whitespace runs, with any leading and trailing whitespace, split back into exactly those words |
| Authentication.SplitKeepsNonSpace | auth_app/authentication.py:40 | the parts, written one after the other, are exactly the header's non-whitespace bytes in order |
| Authentication.SplitEmptyIffBlank | auth_app/authentication.py:40-44 | a header splits into nothing iff it is empty or all whitespace |
| Authentication.GetRawTokenAsWritten | auth_app/authentication.py:35-54 | the code as written: any token is one of the parts and holds no whitespace |
| Authentication.GetRawToken | auth_app/authentication.py:35-54 | any token is one of the split parts and holds no whitespace; an empty or blank header gives none |
| Authentication.RawTokenOfWords | auth_app/authentication.py:40-54 | for words separated by any whitespace runs (with any leading and trailing whitespace): one word is the token, `bearer <token>` in any letter case gives the token, every other shape none |
| Authentication.AsWrittenRejectsEveryPair | auth_app/authentication.py:50 | as written, no two-part header yields a token |
| Authentication.AsWrittenAgreesOtherwise | auth_app/authentication.py:40-54 | as written and corrected agree on every header that is not two parts |
| Authentication.BearerHeaderCounterexample | auth_app/authentication.py:50-52 | `Bearer abc` yields nothing as written and `abc` as intended |
| Authentication.RawTokenOf | auth_app/authentication.py:17-23 | with a header the token comes only from `get_raw_token` of it; without one it is the `access_token` cookie if present |
| Authentication.Authenticate | auth_app/authentication.py:12-33 | a result is a user and token obtained by validating the raw token and looking up its user, and there is a result exactly when the raw token, the validation and the lookup all succeed |
| Authentication.HeaderTakesPrecedence | auth_app/authentication.py:17-26 | with a header the cookies do not matter, and a header yielding no token means no authentication |
| Authentication.FailuresGiveNone | auth_app/authentication.py:25-33 | no raw token, a failed validation or a failed user lookup each give None |
| Authentication.AsWrittenOnlyBareHeaders | auth_app/authentication.py:17-20 | with `get_raw_token` as written, a request with a header authenticates only when the header is a single word; `Bearer <token>` never does |
| Authentication.BearerHeaderAuthenticates | auth_app/authentication.py:17-33 | with the corrected `get_raw_token`, `Bearer <token>` (any letter case, any whitespace around and between) authenticates as the token's user whenever the token validates and the user exists |
| AccountSerializers.GetByEmail | auth_app/api/serializers.py:57-64 | none, the one user with that email, or several, exactly as the matches are |
| AccountSerializers.ValidateRegistration | auth_app/api/serializers.py:20-25 | valid data is returned unchanged |
| AccountSerializers.NewUser | auth_app/api/serializers.py:27-34 | the created user has username and email equal to the given email, the password, and is inactive |
| AccountSerializers.MismatchReportedFirst | auth_app/api/serializers.py:21-22 | mismatched passwords are reported whatever the email and the table |
| AccountSerializers.RegistrationOutcomes | auth_app/api/serializers.py:20-25 | valid iff the passwords match and the email is given and unused; a used email is "Email is already in use." |
| AccountSerializers.ValidateLogin | auth_app/api/serializers.py:46-67 | no email gives "Email is required.", then no password "Password is required."; it raises (`MultipleObjectsReturned`) exactly when both are given and several users share the email; a successful login names a stored user with that email |
| AccountSerializers.LoginOutcomes | auth_app/api/serializers.py:56-67 | for the one user with the email: success iff the password matches and the account is active; wrong password "Invalid credentials."; right password but inactive the distinct not-active error |
| AccountSerializers.UnknownEmailLooksLikeWrongPassword | auth_app/api/serializers.py:56-64 | an unknown email gets "Invalid credentials.", as a wrong password does |
| AccountSerializers.ValidateResetConfirm | auth_app/api/serializers.py:78-91 | valid iff the new password is non-empty and equals the confirmation; the data is returned unchanged; never raises |
| AccountSerializers.ResetConfirmOrder | auth_app/api/serializers.py:82-89 | missing new password, then missing confirmation, then mismatch, each with its message |
| AccountViews.RegisteredUser | auth_app/api/views.py:22-24 | a created user is NewUser of the given email and password |
| AccountViews.UserOfUid | auth_app/api/views.py:54-62 | a user key only when the uid decodes to a key in the table |
| AccountViews.RegisterResponse | auth_app/api/views.py:21-43 | 201 exactly when a user is created, with the next key, the email and the token made for that user; otherwise 400 or 500 |
| AccountViews.Activation | auth_app/api/views.py:53-82 | activation keeps the set of users, changes only `is_active`, and never deactivates anyone |
| AccountViews.ResetConfirmation | auth_app/api/views.py:187-215 | the reset keeps the set of users and changes only passwords; any change comes with the 200 answer |
| AccountViews.AccountStore.CreateUser | auth_app/api/serializers.py:27-34 | the insert fails exactly for an empty or taken username; otherwise the next key gets an inactive user and nothing else changes |
| AccountViews.AccountStore.Register | auth_app/api/views.py:21-43 | the answer is RegisterResponse; a created user is inserted under the next key, which then advances, with one profile carrying its email; otherwise nothing changes |
| AccountViews.AccountStore.Activate | auth_app/api/views.py:53-82 | the answer and user table are those of Activation; profiles and keys unchanged |
| AccountViews.AccountStore.ConfirmPasswordReset | auth_app/api/views.py:187-215 | the answer and user table are those of ResetConfirmation; profiles and keys unchanged |
| AccountViews.PasswordResetRequest | auth_app/api/views.py:150-177 | no email gives 400; otherwise the same 200 answer whether no user or one user has the email; several users sharing it make `get` raise `MultipleObjectsReturned` (line 160), a 500 |
| AccountViews.Logout | auth_app/api/views.py:114-140 | no `refresh_token` cookie gives 400 "Refresh token not found"; cookies are cleared iff the token blacklists, which is exactly the 200 answer |
| AccountViews.RegisterOutcomes | auth_app/api/views.py:21-43 | 201 iff a user is created, carrying its key, email and token; the user is inactive with username = email; a rejected payload gives 400 with the serializer's error |
| AccountViews.ActivationIdempotent | auth_app/api/views.py:65-77 | activating twice leaves the table as once did; a second success says "Account is already activated." |
| AccountViews.ActivationOutcomes | auth_app/api/views.py:53-82 | a uid that does not decode to a user gives 400 "Invalid activation link.", a failing token 400 "Invalid or expired activation token.", both with the table unchanged; a checking token gives 200 "Account successfully activated." with exactly that user made active, or 200 "Account is already activated." with the table unchanged |
| AccountViews.ActivationChangesOnlyActiveFlag | auth_app/api/views.py:53-82 | every 400 leaves the table alone; a change is exactly `is_active` of the decoded, inactive user with a checking token |
| AccountViews.PasswordChangesOnlyOnValidToken | auth_app/api/views.py:187-215 | 200 iff valid payload, resolving uid and checking token; only then, and only that user's password, changes |
| AccountViews.PayloadCheckedBeforeLink | auth_app/api/views.py:188-200 | an invalid payload gives 400 whatever the uid and token |
| AccountViews.ResetRequestRevealsNothing | auth_app/api/views.py:152-177 | the answer equals the one for an empty user table exactly when the email is missing or at most one user has it; several users sharing it give a 500 instead |
| AccountViews.RegisterActivateLogin | auth_app/api/views.py:21-82 | after registration login is refused as inactive; activation with a checking token succeeds; login then accepts the new key |

## Left out

- The encoder (`subprocess.run`) is an input `Outcome` per call; its output files and logging are not modelled. `Raised` also stands for an exception from `os.makedirs` of a rendition directory, which ends that rung the same way; the logged encoder run then stands for the rung's attempt, whether or not the encoder started.
- Tasks.GenerateThumbnail: `Raised` also stands for `video.video_file.path` or `os.makedirs` of the thumbnail directory raising before the encoder starts (`videoflix_app/tasks.py:94-96`); the table is left unchanged as the code leaves it, but the effects log then still records an encoder run that did not happen.
- Tasks.InputPath: the storage's `path(name)` is `safe_join` of the absolute media root and the name, which is absolute, normalised and refuses names that escape the root; the model writes it as `os.path.join(root, name)`, so relative roots, `..` components and the refusal are not modelled.
- AccountSerializers.NewUser: Django's `create_user` normalises the email (the domain is lower-cased) and the username (Unicode NFKC) before storing them; the model stores both verbatim, so `username == email` with the given text holds only for an address already in normal form.
- AccountViews.RegisterOutcomes: inherits the NewUser simplification; the created user's email and username equal the submitted email only when it is already in normal form, and the 201 answer's email is the stored value.
- Authentication.RawTokenOf: takes `get_raw_token` as a parameter; the source's class uses the as-written extraction (so only single-word headers and the cookie ever yield a token, see AsWrittenOnlyBareHeaders), while BearerHeaderAuthenticates states the behaviour with the corrected one.
- Authentication.Authenticate: the same parameter as RawTokenOf; HeaderTakesPrecedence and FailuresGiveNone hold for both extractions.
- The filesystem: directory creation is not modelled, and the views' store is a map from path to `Readable(bytes)` or `Unreadable`. A playlist that is not valid UTF-8 counts as `Unreadable`, and newline translation in text mode is not modelled.
- Concurrency: concurrent runs of the two tasks and the lost updates between their whole-row saves are not modelled; each task runs alone.
- Job dispatch and cleanup on delete: the signal handlers are commented out, and nothing in the repository enqueues the tasks or deletes their output.
- JWT validation, the token generator, refresh-token blacklisting and base64 uid decoding are functions passed in. Password hashing is not modelled: a check compares with the stored secret.
- Django REST framework field validation (email format, required fields) happens before the `validate` methods and is not modelled. The models take the data those methods see, and a missing key is `""`, except the optional registration email, which is `None`.
- `LoginView`, `VideoView`, `CookieTokenObtainPairView` and `CookieTokenRefreshView` are not modelled; they only plumb responses and cookies.
- Module import: `auth_app/api/views.py:5` imports `CustomTokenObtainPairSerializer`, which `auth_app/api/serializers.py` does not define, so as the repository stands importing the account views raises `ImportError` and none of them is reachable. The model describes each view as its code reads, as if the import succeeded.
- AccountSerializers.ValidateLogin: the in-place write of the user object into the data is modelled as returning the user's key.
- PathLayout.RelPath: covers only a path that is the start directory joined with further relative components, which is the only way the thumbnail task calls it; `..` and normalisation are not modelled.
- Ids are unbounded natural numbers; database key limits are not modelled.
- HTTP is reduced to a status code and a body; headers other than the content type and the cookie deletions of logout are not modelled.
- Tasks.LadderEffects: states the encoder commands through the HlsCommand function; the position of every argument in the list is not proved separately.

## Findings

| source | as written | input that shows it | evidently intended | confidence | as-written member | corrected member |
|---|---|---|---|---|---|---|
| auth_app/authentication.py:50 | the first header part, a byte string (the JWT library hands the `Authorization` header over as bytes), is compared with the text `'bearer'`; in Python `bytes` never equals `str`, so no two-part header yields a token | header bytes `Bearer abc` | a two-part header whose first part is `bearer` in any letter case yields the second part (`abc`) | not executed | Authentication.GetRawTokenAsWritten | Authentication.GetRawToken |
