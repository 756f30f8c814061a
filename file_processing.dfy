/** The processing pipeline (FileProcessingService): request builders and the
    four batch operations.

    Per uploaded file a batch stores the original under ORIGINALS, sends its
    base64 to the image API, and saves the decoded answer under the
    operation's subdirectory with the upload's filename. Files are handled in
    list order; the first failure ends the batch and nothing is rolled back.
    Subdirectories are written under the enum constants' built-in names
    ("ORIGINALS", "UPSCALE", ...), as the service does. */
module Processing {
  import opened Wrappers
  import opened Errors
  import opened Base64
  import opened Dtos
  import opened FilesDirectories
  import opened Storage
  import opened Vendor

  /** What a batch does to each file. The two background operations carry the
      shared DTO, whose image field every file overwrites in turn. */
  datatype Operation =
    | UpscaleOp(size: Int32)
    | RemoveBackgroundOp
    | CreateBackgroundOp(createBackgroundDto: CreateBackgroundDto)
    | InpaintOp(inpaintDto: InpaintDto)
  {
    /** Where results are saved. */
    function OutputDirectory(): (d: FilesDirectory)
      ensures d != ORIGINALS
    {
      match this
      case UpscaleOp(_) => UPSCALE
      case RemoveBackgroundOp => REMOVED
      case CreateBackgroundOp(_) => CREATED
      case InpaintOp(_) => INPAINT
    }

    /** The shared DTO after `setImages(List.of(imageBase64))` (create
        background) or `setImage(imageBase64)` (inpaint). */
    function WithImage(imageBase64: string): (op: Operation)
      ensures op.OutputDirectory() == OutputDirectory()
      ensures UpscaleOp? || RemoveBackgroundOp? ==> op == this
      ensures CreateBackgroundOp? ==>
                && op.CreateBackgroundOp?
                && op.createBackgroundDto.images == Some([imageBase64])
                && op.createBackgroundDto.background == createBackgroundDto.background
                && op.createBackgroundDto.height == createBackgroundDto.height
                && op.createBackgroundDto.width == createBackgroundDto.width
      ensures InpaintOp? ==>
                && op.InpaintOp?
                && op.inpaintDto.background.image == Some(imageBase64)
                && op.inpaintDto.background == inpaintDto.background.(image := op.inpaintDto.background.image)
                && op.inpaintDto.mask == inpaintDto.mask
    {
      match this
      case CreateBackgroundOp(dto) => CreateBackgroundOp(dto.(images := Some([imageBase64])))
      case InpaintOp(dto) => InpaintOp(dto.(background := dto.background.(image := Some(imageBase64))))
      case _ => this
    }

    /** The request sent for a file whose base64 is `imageBase64`: it carries
        that base64 and takes every other field from the operation. */
    function Request(imageBase64: string): (r: VendorRequest)
      ensures UpscaleOp? ==> r == Upscale(UpscaleDto(Some(imageBase64), size))
      ensures RemoveBackgroundOp? ==> r == RemoveBackground(ImageDto(Some(imageBase64)))
      ensures CreateBackgroundOp? ==>
                && r.CreateBackground?
                && r.createBackgroundDto.images == Some([imageBase64])
                && r.createBackgroundDto.background == createBackgroundDto.background
                && r.createBackgroundDto.height == createBackgroundDto.height
                && r.createBackgroundDto.width == createBackgroundDto.width
      ensures InpaintOp? ==>
                && r.Inpaint?
                && r.inpaintDto.background == inpaintDto.background.(image := Some(imageBase64))
                && r.inpaintDto.mask == inpaintDto.mask
    {
      match WithImage(imageBase64)
      case UpscaleOp(size) => Upscale(UpscaleDto(Some(imageBase64), size))
      case RemoveBackgroundOp => RemoveBackground(ImageDto(Some(imageBase64)))
      case CreateBackgroundOp(dto) => CreateBackground(dto)
      case InpaintOp(dto) => Inpaint(dto)
    }
  }

  /** Setting the image again overwrites the previous one: a file's request
      does not depend on the files handled before it. */
  lemma WithImageOverwrites(op: Operation, earlier: string, imageBase64: string)
    ensures op.WithImage(earlier).Request(imageBase64) == op.Request(imageBase64)
    ensures op.WithImage(earlier).WithImage(imageBase64) == op.WithImage(imageBase64)
  {
  }

  /** Everything a batch changes: the disk and the vendor's call log. */
  datatype World = World(disk: Disk, calls: seq<VendorRequest>)

  /** What the environment decides: refused writes and the API's answers. */
  datatype Env = Env(unwritable: set<Key>, reply: VendorRequest -> Option<string>)

  /** The state, the outcome so far and the operation (with the shared DTO). */
  datatype Progress = Progress(world: World, outcome: Outcome<Error>, op: Operation)

  /** An entry a file of the batch may write: its original, or its result. */
  predicate Touches(op: Operation, upload: Upload, k: Key) {
    && upload.originalFilename.Some?
    && k.1 == upload.originalFilename.value
    && (k.0 == ORIGINALS.Name() || k.0 == op.OutputDirectory().Name())
  }

  /** The request the batch sends for `upload`. */
  function RequestFor(op: Operation, upload: Upload): VendorRequest {
    op.Request(Encode(upload.bytes))
  }

  /** Whether a file goes through: it has a filename, the filesystem accepts
      both the original and the result, and the API answers its request. */
  predicate StepSucceeds(env: Env, op: Operation, upload: Upload) {
    && CanStore(env.unwritable, upload, ORIGINALS.Name())
    && env.reply(RequestFor(op, upload)).Some?
    && CanWrite(env.unwritable, op.OutputDirectory().Name(), upload.originalFilename.value)
  }

  /** The exception a file that does not go through throws: the first of the
      store, the API call and the save that fails. */
  function StepError(env: Env, op: Operation, upload: Upload): Error {
    if upload.originalFilename.None? then NullPointerException
    else if !CanWrite(env.unwritable, ORIGINALS.Name(), upload.originalFilename.value) then
      IOException(FilePath(ORIGINALS.Name(), upload.originalFilename.value))
    else if env.reply(RequestFor(op, upload)).None? then PebblelyException(ErrorMessage(RequestFor(op, upload)))
    else IOException(FilePath(op.OutputDirectory().Name(), upload.originalFilename.value))
  }

  /** One file: `upscaleImage`, `removeBackground`, `createBackground` or
      `inpaintFile`. */
  function Step(w: World, env: Env, op: Operation, upload: Upload): (r: Progress)
    ensures r.outcome.Pass? <==> StepSucceeds(env, op, upload)
    ensures r.outcome.Fail? ==> r.outcome.error == StepError(env, op, upload)
    ensures r.op.OutputDirectory() == op.OutputDirectory()
    ensures r.world.disk.directories <= w.disk.directories + {ORIGINALS.Name(), op.OutputDirectory().Name()}
    ensures w.disk.files.Keys <= r.world.disk.files.Keys
    ensures w.disk.Valid() ==> r.world.disk.Valid()
    ensures r.world.calls == w.calls || r.world.calls == w.calls + [RequestFor(op, upload)]
    ensures forall k :: !Touches(op, upload, k) ==> SameEntry(w.disk.files, r.world.disk.files, k)
    // storing the original failed: no vendor call, nothing written
    ensures StoreUpload(w.disk, env.unwritable, upload, ORIGINALS.Name()).1.Failure? ==>
              r.outcome.Fail? && r.world.calls == w.calls && r.world.disk.files == w.disk.files
    // the original is stored: the call is made, and a later failure keeps the original
    ensures CanStore(env.unwritable, upload, ORIGINALS.Name()) ==> r.world.calls == w.calls + [RequestFor(op, upload)]
    ensures CanStore(env.unwritable, upload, ORIGINALS.Name()) && r.outcome.Fail? ==>
              r.world.disk.files == w.disk.files[(ORIGINALS.Name(), upload.originalFilename.value) := upload.bytes]
    ensures r.outcome.Pass? ==>
              && upload.originalFilename.Some?
              && env.reply(RequestFor(op, upload)).Some?
              && r.world.calls == w.calls + [RequestFor(op, upload)]
              && r.op == op.WithImage(Encode(upload.bytes))
              && r.world.disk.files == w.disk.files
                   [(ORIGINALS.Name(), upload.originalFilename.value) := upload.bytes]
                   [(op.OutputDirectory().Name(), upload.originalFilename.value) :=
                      Decode(env.reply(RequestFor(op, upload)).value)]
  {
    var (stored, encoded) := StoreUpload(w.disk, env.unwritable, upload, ORIGINALS.Name());
    if encoded.Failure? then Progress(World(stored, w.calls), Fail(encoded.error), op)
    else
      var request := op.Request(encoded.value);
      var calls := w.calls + [request];
      var op' := op.WithImage(encoded.value);
      match Respond(env.reply, request)
      case Failure(e) => Progress(World(stored, calls), Fail(e), op')
      case Success(data) =>
        var (saved, outcome) :=
          SaveFromBase64(stored, env.unwritable, data, op.OutputDirectory().Name(), upload.originalFilename.value);
        Progress(World(saved, calls), outcome, op')
  }

  /** A whole batch: the files in list order, stopping at the first failure. */
  function Batch(w: World, env: Env, op: Operation, uploads: seq<Upload>): (r: Progress)
    ensures r.op.OutputDirectory() == op.OutputDirectory()
    ensures w.disk.files.Keys <= r.world.disk.files.Keys
    ensures w.disk.Valid() ==> r.world.disk.Valid()
    ensures |w.calls| <= |r.world.calls| <= |w.calls| + |uploads|
    ensures r.world.calls[..|w.calls|] == w.calls
    decreases |uploads|
  {
    if uploads == [] then Progress(w, Pass, op)
    else
      var before := Batch(w, env, op, uploads[..|uploads| - 1]);
      if before.outcome.Fail? then before
      else Step(before.world, env, before.op, uploads[|uploads| - 1])
  }

  /** Once a prefix of the batch has failed, the later files change nothing. */
  lemma {:induction false} FailureIsFinal(w: World, env: Env, op: Operation, uploads: seq<Upload>, k: nat)
    requires k <= |uploads|
    requires Batch(w, env, op, uploads[..k]).outcome.Fail?
    ensures Batch(w, env, op, uploads) == Batch(w, env, op, uploads[..k])
    decreases |uploads|
  {
    if k < |uploads| {
      var init := uploads[..|uploads| - 1];
      assert init[..k] == uploads[..k];
      FailureIsFinal(w, env, op, init, k);
    } else {
      assert uploads[..k] == uploads;
    }
  }

  /** A successful batch of n + 1 files is a successful batch of the first n
      files followed by a successful step on the last one. */
  lemma {:induction false} SuccessfulBatchSnoc(w: World, env: Env, op: Operation, uploads: seq<Upload>)
    requires uploads != []
    requires Batch(w, env, op, uploads).outcome.Pass?
    ensures Batch(w, env, op, uploads[..|uploads| - 1]).outcome.Pass?
    ensures var before := Batch(w, env, op, uploads[..|uploads| - 1]);
            var after := Batch(w, env, op, uploads);
            var last := uploads[|uploads| - 1];
            && last.originalFilename.Some?
            && env.reply(RequestFor(before.op, last)).Some?
            && after.world.calls == before.world.calls + [RequestFor(before.op, last)]
            && after.op == before.op.WithImage(Encode(last.bytes))
            && after.world.disk.files == before.world.disk.files
                 [(ORIGINALS.Name(), last.originalFilename.value) := last.bytes]
                 [(op.OutputDirectory().Name(), last.originalFilename.value) :=
                    Decode(env.reply(RequestFor(before.op, last)).value)]
  {
  }

  /** The requests of a list of files, one per file, in list order. */
  function Requests(op: Operation, uploads: seq<Upload>): (r: seq<VendorRequest>)
    ensures |r| == |uploads|
    ensures forall i :: 0 <= i < |uploads| ==> r[i] == RequestFor(op, uploads[i])
  {
    if uploads == [] then []
    else Requests(op, uploads[..|uploads| - 1]) + [RequestFor(op, uploads[|uploads| - 1])]
  }

  /** A batch that succeeds had a filename for every file: a file without one
      makes the batch fail. */
  lemma {:induction false} SuccessfulBatchNamesEveryFile(w: World, env: Env, op: Operation, uploads: seq<Upload>, i: nat)
    requires Batch(w, env, op, uploads).outcome.Pass?
    requires i < |uploads|
    ensures uploads[i].originalFilename.Some?
    decreases |uploads|
  {
    SuccessfulBatchSnoc(w, env, op, uploads);
    if i < |uploads| - 1 {
      var init := uploads[..|uploads| - 1];
      SuccessfulBatchNamesEveryFile(w, env, op, init, i);
      assert init[i] == uploads[i];
    }
  }

  /** A batch leaves the shared DTO holding the last file's image, or
      untouched when there are no files. */
  lemma {:induction false} SuccessfulBatchLeavesLastImage(w: World, env: Env, op: Operation, uploads: seq<Upload>)
    requires Batch(w, env, op, uploads).outcome.Pass?
    ensures uploads == [] ==> Batch(w, env, op, uploads).op == op
    ensures uploads != [] ==> Batch(w, env, op, uploads).op == op.WithImage(Encode(uploads[|uploads| - 1].bytes))
    decreases |uploads|
  {
    if uploads != [] {
      var init := uploads[..|uploads| - 1];
      SuccessfulBatchSnoc(w, env, op, uploads);
      SuccessfulBatchLeavesLastImage(w, env, op, init);
      if init != [] {
        WithImageOverwrites(op, Encode(init[|init| - 1].bytes), Encode(uploads[|uploads| - 1].bytes));
      }
    }
  }

  /** Each file's request is the same whatever files preceded it in the batch. */
  lemma {:induction false} SuccessfulBatchRequest(w: World, env: Env, op: Operation, uploads: seq<Upload>, next: Upload)
    requires Batch(w, env, op, uploads).outcome.Pass?
    ensures RequestFor(Batch(w, env, op, uploads).op, next) == RequestFor(op, next)
  {
    SuccessfulBatchLeavesLastImage(w, env, op, uploads);
    if uploads != [] {
      WithImageOverwrites(op, Encode(uploads[|uploads| - 1].bytes), Encode(next.bytes));
    }
  }

  /** A batch that succeeds sends exactly one request per file, in list order,
      each carrying that file's base64 and the operation's other fields. */
  lemma {:induction false} SuccessfulBatchCalls(w: World, env: Env, op: Operation, uploads: seq<Upload>)
    requires Batch(w, env, op, uploads).outcome.Pass?
    ensures Batch(w, env, op, uploads).world.calls == w.calls + Requests(op, uploads)
    decreases |uploads|
  {
    if uploads != [] {
      var init := uploads[..|uploads| - 1];
      var last := uploads[|uploads| - 1];
      SuccessfulBatchSnoc(w, env, op, uploads);
      SuccessfulBatchCalls(w, env, op, init);
      SuccessfulBatchRequest(w, env, op, init, last);
      assert Requests(op, uploads) == Requests(op, init) + [RequestFor(op, last)];
    }
  }

  /** The last file of the list uploaded under `name`, if any: later files
      overwrite earlier ones of the same name. */
  function LastNamed(uploads: seq<Upload>, name: string): (r: Option<Upload>)
    ensures r.Some? ==> r.value in uploads && r.value.originalFilename == Some(name)
    ensures r.None? ==> forall u :: u in uploads ==> u.originalFilename != Some(name)
  {
    if uploads == [] then None
    else if uploads[|uploads| - 1].originalFilename == Some(name) then Some(uploads[|uploads| - 1])
    else
      var r := LastNamed(uploads[..|uploads| - 1], name);
      assert uploads == uploads[..|uploads| - 1] + [uploads[|uploads| - 1]];
      r
  }

  /** A batch that succeeds leaves under ORIGINALS, for each name, the bytes
      of the last file uploaded under it. */
  lemma {:induction false} SuccessfulBatchStoresOriginal(w: World, env: Env, op: Operation, uploads: seq<Upload>, name: string)
    requires Batch(w, env, op, uploads).outcome.Pass?
    requires LastNamed(uploads, name).Some?
    ensures var files := Batch(w, env, op, uploads).world.disk.files;
            && (ORIGINALS.Name(), name) in files
            && files[(ORIGINALS.Name(), name)] == LastNamed(uploads, name).value.bytes
    decreases |uploads|
  {
    SuccessfulBatchSnoc(w, env, op, uploads);
    if uploads[|uploads| - 1].originalFilename != Some(name) {
      SuccessfulBatchStoresOriginal(w, env, op, uploads[..|uploads| - 1], name);
    }
  }

  /** A batch that succeeds leaves under the operation's subdirectory, for
      each name, the decoded answer to the request of the last file uploaded
      under it. */
  lemma {:induction false} SuccessfulBatchStoresResult(w: World, env: Env, op: Operation, uploads: seq<Upload>, name: string)
    requires Batch(w, env, op, uploads).outcome.Pass?
    requires LastNamed(uploads, name).Some?
    ensures var u := LastNamed(uploads, name).value;
            var files := Batch(w, env, op, uploads).world.disk.files;
            && env.reply(RequestFor(op, u)).Some?
            && (op.OutputDirectory().Name(), name) in files
            && files[(op.OutputDirectory().Name(), name)] == Decode(env.reply(RequestFor(op, u)).value)
    decreases |uploads|
  {
    var init := uploads[..|uploads| - 1];
    SuccessfulBatchSnoc(w, env, op, uploads);
    SuccessfulBatchRequest(w, env, op, init, uploads[|uploads| - 1]);
    if uploads[|uploads| - 1].originalFilename != Some(name) {
      SuccessfulBatchStoresResult(w, env, op, init, name);
    }
  }

  /** Every file of the list goes through on its own. */
  predicate AllSucceed(env: Env, op: Operation, uploads: seq<Upload>) {
    forall i :: 0 <= i < |uploads| ==> StepSucceeds(env, op, uploads[i])
  }

  lemma AllSucceedSnoc(env: Env, op: Operation, uploads: seq<Upload>)
    requires uploads != []
    ensures AllSucceed(env, op, uploads)
        <==> AllSucceed(env, op, uploads[..|uploads| - 1]) && StepSucceeds(env, op, uploads[|uploads| - 1])
  {
    var init := uploads[..|uploads| - 1];
    if AllSucceed(env, op, uploads) {
      forall i | 0 <= i < |init|
        ensures StepSucceeds(env, op, init[i])
      {
        assert init[i] == uploads[i];
      }
    }
    if AllSucceed(env, op, init) && StepSucceeds(env, op, uploads[|uploads| - 1]) {
      forall i | 0 <= i < |uploads|
        ensures StepSucceeds(env, op, uploads[i])
      {
        if i < |init| {
          assert init[i] == uploads[i];
        }
      }
    }
  }

  /** A batch succeeds exactly when every one of its files would: earlier
      files never make a later one fail, and no failure goes unreported. */
  lemma {:induction false} BatchSucceeds(w: World, env: Env, op: Operation, uploads: seq<Upload>)
    ensures Batch(w, env, op, uploads).outcome.Pass? <==> AllSucceed(env, op, uploads)
    decreases |uploads|
  {
    if uploads != [] {
      var init := uploads[..|uploads| - 1];
      var last := uploads[|uploads| - 1];
      BatchSucceeds(w, env, op, init);
      AllSucceedSnoc(env, op, uploads);
      var before := Batch(w, env, op, init);
      if before.outcome.Pass? {
        SuccessfulBatchRequest(w, env, op, init, last);
        assert Batch(w, env, op, uploads) == Step(before.world, env, before.op, last);
      } else {
        assert Batch(w, env, op, uploads) == before;
      }
    }
  }

  /** The position of the file at which a failing batch stopped. */
  function FailedAt(w: World, env: Env, op: Operation, uploads: seq<Upload>): (k: nat)
    requires Batch(w, env, op, uploads).outcome.Fail?
    ensures k < |uploads|
    decreases |uploads|
  {
    var init := uploads[..|uploads| - 1];
    if Batch(w, env, op, init).outcome.Fail? then FailedAt(w, env, op, init) else |uploads| - 1
  }

  /** Fail-fast: the files before the failing one all succeeded, the failing
      file's step is the last thing that happened, and every later file was
      never attempted. Nothing is rolled back. */
  lemma {:induction false} FailingBatchStopsAtFirstFailure(w: World, env: Env, op: Operation, uploads: seq<Upload>)
    requires Batch(w, env, op, uploads).outcome.Fail?
    ensures var k := FailedAt(w, env, op, uploads);
            var before := Batch(w, env, op, uploads[..k]);
            && before.outcome.Pass?
            && Batch(w, env, op, uploads) == Step(before.world, env, before.op, uploads[k])
    decreases |uploads|
  {
    var init := uploads[..|uploads| - 1];
    if Batch(w, env, op, init).outcome.Fail? {
      FailingBatchStopsAtFirstFailure(w, env, op, init);
      var k := FailedAt(w, env, op, init);
      assert init[..k] == uploads[..k];
      assert init[k] == uploads[k];
    } else {
      assert uploads[..|uploads| - 1] == init;
    }
  }

  /** What the files before the failing one saved stays on disk, contents
      included. The failing file changes at most its own original: when the
      original could be stored it is kept and the file's vendor call was
      made; otherwise neither the disk nor the call log changes. */
  lemma {:induction false} FailingBatchKeepsEarlierWork(w: World, env: Env, op: Operation, uploads: seq<Upload>)
    requires Batch(w, env, op, uploads).outcome.Fail?
    ensures var k := FailedAt(w, env, op, uploads);
            var before := Batch(w, env, op, uploads[..k]);
            var after := Batch(w, env, op, uploads).world;
            && before.world.disk.files.Keys <= after.disk.files.Keys
            && (after.calls == before.world.calls || after.calls == before.world.calls + [RequestFor(op, uploads[k])])
    ensures var k := FailedAt(w, env, op, uploads);
            var before := Batch(w, env, op, uploads[..k]);
            var after := Batch(w, env, op, uploads).world;
            var u := uploads[k];
            && (CanStore(env.unwritable, u, ORIGINALS.Name()) ==>
                  && after.disk.files == before.world.disk.files[(ORIGINALS.Name(), u.originalFilename.value) := u.bytes]
                  && after.calls == before.world.calls + [RequestFor(op, u)])
            && (!CanStore(env.unwritable, u, ORIGINALS.Name()) ==>
                  after.disk.files == before.world.disk.files && after.calls == before.world.calls)
  {
    FailingBatchStopsAtFirstFailure(w, env, op, uploads);
    var k := FailedAt(w, env, op, uploads);
    SuccessfulBatchRequest(w, env, op, uploads[..k], uploads[k]);
  }

  /** Whether a file goes through, and the exception it throws otherwise,
      depend on the operation only through the request and the output
      directory. */
  lemma StepDependsOnRequest(env: Env, op: Operation, op': Operation, upload: Upload)
    requires RequestFor(op', upload) == RequestFor(op, upload)
    requires op'.OutputDirectory() == op.OutputDirectory()
    ensures StepSucceeds(env, op', upload) == StepSucceeds(env, op, upload)
    ensures StepError(env, op', upload) == StepError(env, op, upload)
  {
  }

  /** A failing batch throws the exception of its first file that does not
      go through. */
  lemma FailingBatchError(w: World, env: Env, op: Operation, uploads: seq<Upload>)
    requires Batch(w, env, op, uploads).outcome.Fail?
    ensures var k := FailedAt(w, env, op, uploads);
            && AllSucceed(env, op, uploads[..k])
            && !StepSucceeds(env, op, uploads[k])
            && Batch(w, env, op, uploads).outcome.error == StepError(env, op, uploads[k])
  {
    FailingBatchStopsAtFirstFailure(w, env, op, uploads);
    var k := FailedAt(w, env, op, uploads);
    var before := Batch(w, env, op, uploads[..k]);
    BatchSucceeds(w, env, op, uploads[..k]);
    SuccessfulBatchRequest(w, env, op, uploads[..k], uploads[k]);
    StepDependsOnRequest(env, op, before.op, uploads[k]);
  }

  /** A batch leaves every entry alone that no file of it touches. */
  lemma {:induction false} BatchFrame(w: World, env: Env, op: Operation, uploads: seq<Upload>, k: Key)
    requires forall i :: 0 <= i < |uploads| ==> !Touches(op, uploads[i], k)
    ensures SameEntry(w.disk.files, Batch(w, env, op, uploads).world.disk.files, k)
    decreases |uploads|
  {
    if uploads != [] {
      var init := uploads[..|uploads| - 1];
      BatchFrame(w, env, op, init, k);
      var before := Batch(w, env, op, init);
      assert !Touches(before.op, uploads[|uploads| - 1], k);
    }
  }

  /** Batches write only under the constants' built-in names, never under the
      lower-case names the listing page reads: no batch changes an entry of a
      directory that `getDirectoriesNames()` lists. */
  lemma BatchSkipsListedDirectories(w: World, env: Env, op: Operation, uploads: seq<Upload>, k: Key)
    requires k.0 in GetDirectoriesNames()
    ensures SameEntry(w.disk.files, Batch(w, env, op, uploads).world.disk.files, k)
  {
    NameDiffersFromGetName(ORIGINALS);
    NameDiffersFromGetName(op.OutputDirectory());
    BatchFrame(w, env, op, uploads, k);
  }

  /** Whether the style image, when there is one to store, can be stored. */
  predicate StyleImageStorable(unwritable: set<Key>, styleImage: Option<Upload>) {
    styleImage.None? || styleImage.value.IsEmpty() || CanStore(unwritable, styleImage.value, ORIGINALS.Name())
  }

  /** The request-builder's background fields, plus the style image: when a
      non-empty style image is given it is stored under ORIGINALS and its
      base64 becomes `styleImage`; otherwise nothing is written. */
  function BuildBackground(d: Disk, unwritable: set<Key>, dto: BackgroundDto, theme: Option<string>,
                           description: Option<string>, styleColor: Option<string>, styleImage: Option<Upload>,
                           negative: Option<string>): (r: (Disk, Result<BackgroundDto, Error>))
    ensures styleImage.None? || styleImage.value.IsEmpty() ==>
              r == (d, Success(ApplyBackgroundFields(dto, theme, description, styleColor, negative)))
    ensures styleImage.Some? && !styleImage.value.IsEmpty() ==>
              var (stored, encoded) := StoreUpload(d, unwritable, styleImage.value, ORIGINALS.Name());
              && r.0 == stored
              && (r.1.Success? <==> encoded.Success?)
              && (r.1.Success? ==> r.1.value == ApplyBackgroundFields(dto, theme, description, styleColor, negative)
                                                  .(styleImage := Some(Encode(styleImage.value.bytes))))
    ensures r.1.Success? <==> StyleImageStorable(unwritable, styleImage)
    ensures r.1.Failure? ==> r.1.error == StoreUpload(d, unwritable, styleImage.value, ORIGINALS.Name()).1.error
    ensures d.Valid() ==> r.0.Valid()
  {
    var fields := ApplyBackgroundFields(dto, theme, description, styleColor, negative);
    if styleImage.Some? && !styleImage.value.IsEmpty() then
      var (stored, encoded) := StoreUpload(d, unwritable, styleImage.value, ORIGINALS.Name());
      match encoded
      case Failure(e) => (stored, Failure(e))
      case Success(imageBase64) => (stored, Success(fields.(styleImage := Some(imageBase64))))
    else
      (d, Success(fields))
  }

  /** `buildCreateBackgroundDto`: a fresh DTO, height and width set when not
      null, then the background fields and the style image as
      `buildBackgroundDto` sets them on an unset background. */
  function BuildCreateBackground(d: Disk, unwritable: set<Key>, theme: Option<string>, description: Option<string>,
                                 styleColor: Option<string>, styleImage: Option<Upload>, negative: Option<string>,
                                 height: Option<Int32>, width: Option<Int32>): (r: (Disk, Result<CreateBackgroundDto, Error>))
    ensures r.1.Success? <==> StyleImageStorable(unwritable, styleImage)
    ensures var (stored, background) :=
              BuildBackground(d, unwritable, UnsetBackground, theme, description, styleColor, styleImage, negative);
            && r.0 == stored
            && (r.1.Success? ==> r.1.value.background == background.value)
            && (r.1.Failure? ==> r.1.error == background.error)
    ensures r.1.Success? ==> r.1.value.height == height && r.1.value.width == width && r.1.value.images == None
    ensures r.1.Success? ==>
              && r.1.value.background.theme == SetIfPresent(None, theme)
              && r.1.value.background.styleColor == SetIfPresent(None, styleColor)
              && r.1.value.background.description == description
              && r.1.value.background.negative == negative
    ensures d.Valid() ==> r.0.Valid()
  {
    var dto := ApplyDimensions(NewCreateBackgroundDto, height, width);
    var (stored, background) := BuildBackground(d, unwritable, dto.background, theme, description, styleColor, styleImage, negative);
    match background
    case Failure(e) => (stored, Failure(e))
    case Success(b) => (stored, Success(dto.(background := b)))
  }

  /** `buildInpaintDto`: the mask is stored under ORIGINALS first and its
      base64 becomes the mask field; then the background fields and the
      style image as `buildBackgroundDto` sets them on an unset background,
      on the disk that now holds the mask. */
  function BuildInpaint(d: Disk, unwritable: set<Key>, mask: Upload, theme: Option<string>, description: Option<string>,
                        styleColor: Option<string>, styleImage: Option<Upload>, negative: Option<string>)
    : (r: (Disk, Result<InpaintDto, Error>))
    ensures r.1.Success? <==> CanStore(unwritable, mask, ORIGINALS.Name()) && StyleImageStorable(unwritable, styleImage)
    ensures var (stored, encoded) := StoreUpload(d, unwritable, mask, ORIGINALS.Name());
            encoded.Failure? ==> r == (stored, Failure(encoded.error))
    ensures var (stored, encoded) := StoreUpload(d, unwritable, mask, ORIGINALS.Name());
            var (stored', background) :=
              BuildBackground(stored, unwritable, UnsetBackground, theme, description, styleColor, styleImage, negative);
            encoded.Success? ==>
              && r.0 == stored'
              && (r.1.Success? ==> r.1.value == InpaintDto(background.value, Some(Encode(mask.bytes))))
              && (r.1.Failure? ==> r.1.error == background.error)
    ensures r.1.Success? ==> r.1.value.mask == Some(Encode(mask.bytes)) && r.1.value.background.image == None
    ensures r.1.Success? ==>
              && mask.originalFilename.Some?
              && (ORIGINALS.Name(), mask.originalFilename.value) in r.0.files
    ensures d.Valid() ==> r.0.Valid()
  {
    var (stored, encoded) := StoreUpload(d, unwritable, mask, ORIGINALS.Name());
    match encoded
    case Failure(e) => (stored, Failure(e))
    case Success(maskBase64) =>
      var dto := NewInpaintDto(maskBase64);
      var (stored', background) :=
        BuildBackground(stored, unwritable, dto.background, theme, description, styleColor, styleImage, negative);
      match background
      case Failure(e) => (stored', Failure(e))
      case Success(b) => (stored', Success(dto.(background := b)))
  }

  class FileProcessingService {
    const storage: FileStorageService
    const vendor: PebblelyService

    constructor (storage: FileStorageService, vendor: PebblelyService)
      ensures this.storage == storage && this.vendor == vendor
    {
      this.storage := storage;
      this.vendor := vendor;
    }

    function State(): World
      reads storage, vendor
    {
      World(storage.State(), vendor.calls)
    }

    function Environment(): Env {
      Env(storage.unwritable, vendor.reply)
    }

    /** One file of a batch (the four private per-file helpers). */
    method ProcessFile(upload: Upload, op: Operation) returns (r: Outcome<Error>, opAfter: Operation)
      requires storage.Valid()
      modifies storage, vendor
      ensures storage.Valid()
      ensures Progress(State(), r, opAfter) == Step(old(State()), Environment(), op, upload)
    {
      var imageBase64 := storage.GetMultipartFileInBase64(upload, ORIGINALS.Name());
      if imageBase64.Failure? {
        return Fail(imageBase64.error), op;
      }
      var request := op.Request(imageBase64.value);
      opAfter := op.WithImage(imageBase64.value);
      var result := vendor.Call(request);
      if result.Failure? {
        return Fail(result.error), opAfter;
      }
      r := storage.SaveFileFromBase64(result.value, op.OutputDirectory().Name(), upload.originalFilename.value);
    }

    /** The loop of every batch method: each file in order, fail-fast. */
    method ProcessFiles(uploads: seq<Upload>, op: Operation) returns (r: Outcome<Error>, opAfter: Operation)
      requires storage.Valid()
      modifies storage, vendor
      ensures storage.Valid()
      ensures Progress(State(), r, opAfter) == Batch(old(State()), Environment(), op, uploads)
      ensures r.Pass? <==> AllSucceed(Environment(), op, uploads)
      ensures r.Fail? ==>
                r.error == StepError(Environment(), op, uploads[FailedAt(old(State()), Environment(), op, uploads)])
    {
      opAfter := op;
      var i := 0;
      while i < |uploads|
        invariant 0 <= i <= |uploads|
        invariant storage.Valid()
        invariant Progress(State(), Pass, opAfter) == Batch(old(State()), Environment(), op, uploads[..i])
      {
        assert uploads[..i + 1][..i] == uploads[..i];
        var outcome, next := ProcessFile(uploads[i], opAfter);
        if outcome.Fail? {
          FailureIsFinal(old(State()), Environment(), op, uploads, i + 1);
          FailingBatchError(old(State()), Environment(), op, uploads);
          return outcome, next;
        }
        opAfter := next;
        i := i + 1;
      }
      assert uploads[..i] == uploads;
      BatchSucceeds(old(State()), Environment(), op, uploads);
      r := Pass;
    }

    /** `upscaleImages`. */
    method UpscaleImages(uploads: seq<Upload>, size: Int32) returns (r: Outcome<Error>)
      requires storage.Valid()
      modifies storage, vendor
      ensures storage.Valid()
      ensures var b := Batch(old(State()), Environment(), UpscaleOp(size), uploads);
              State() == b.world && r == b.outcome
      ensures r.Pass? <==> AllSucceed(Environment(), UpscaleOp(size), uploads)
      ensures r.Fail? ==>
                r.error == StepError(Environment(), UpscaleOp(size), uploads[FailedAt(old(State()), Environment(), UpscaleOp(size), uploads)])
    {
      var opAfter;
      r, opAfter := ProcessFiles(uploads, UpscaleOp(size));
    }

    /** `removeBackgrounds`. */
    method RemoveBackgrounds(uploads: seq<Upload>) returns (r: Outcome<Error>)
      requires storage.Valid()
      modifies storage, vendor
      ensures storage.Valid()
      ensures var b := Batch(old(State()), Environment(), RemoveBackgroundOp, uploads);
              State() == b.world && r == b.outcome
      ensures r.Pass? <==> AllSucceed(Environment(), RemoveBackgroundOp, uploads)
      ensures r.Fail? ==>
                r.error == StepError(Environment(), RemoveBackgroundOp, uploads[FailedAt(old(State()), Environment(), RemoveBackgroundOp, uploads)])
    {
      var opAfter;
      r, opAfter := ProcessFiles(uploads, RemoveBackgroundOp);
    }

    /** `createBackgrounds`; `dtoAfter` is the shared DTO as the loop leaves it. */
    method CreateBackgrounds(uploads: seq<Upload>, dto: CreateBackgroundDto)
      returns (r: Outcome<Error>, dtoAfter: CreateBackgroundDto)
      requires storage.Valid()
      modifies storage, vendor
      ensures storage.Valid()
      ensures Batch(old(State()), Environment(), CreateBackgroundOp(dto), uploads)
           == Progress(State(), r, CreateBackgroundOp(dtoAfter))
      ensures r.Pass? <==> AllSucceed(Environment(), CreateBackgroundOp(dto), uploads)
      ensures r.Fail? ==>
                r.error == StepError(Environment(), CreateBackgroundOp(dto), uploads[FailedAt(old(State()), Environment(), CreateBackgroundOp(dto), uploads)])
      ensures r.Pass? && uploads == [] ==> dtoAfter == dto
      ensures r.Pass? && uploads != [] ==>
                dtoAfter == dto.(images := Some([Encode(uploads[|uploads| - 1].bytes)]))
    {
      var opAfter;
      r, opAfter := ProcessFiles(uploads, CreateBackgroundOp(dto));
      dtoAfter := opAfter.createBackgroundDto;
      if r.Pass? {
        SuccessfulBatchLeavesLastImage(old(State()), Environment(), CreateBackgroundOp(dto), uploads);
      }
    }

    /** `inpaintFiles`; `dtoAfter` is the shared DTO as the loop leaves it. */
    method InpaintFiles(uploads: seq<Upload>, dto: InpaintDto) returns (r: Outcome<Error>, dtoAfter: InpaintDto)
      requires storage.Valid()
      modifies storage, vendor
      ensures storage.Valid()
      ensures Batch(old(State()), Environment(), InpaintOp(dto), uploads)
           == Progress(State(), r, InpaintOp(dtoAfter))
      ensures r.Pass? <==> AllSucceed(Environment(), InpaintOp(dto), uploads)
      ensures r.Fail? ==>
                r.error == StepError(Environment(), InpaintOp(dto), uploads[FailedAt(old(State()), Environment(), InpaintOp(dto), uploads)])
      ensures r.Pass? && uploads == [] ==> dtoAfter == dto
      ensures r.Pass? && uploads != [] ==>
                dtoAfter == dto.(background := dto.background.(image := Some(Encode(uploads[|uploads| - 1].bytes))))
    {
      var opAfter;
      r, opAfter := ProcessFiles(uploads, InpaintOp(dto));
      dtoAfter := opAfter.inpaintDto;
      if r.Pass? {
        SuccessfulBatchLeavesLastImage(old(State()), Environment(), InpaintOp(dto), uploads);
      }
    }

    /** `buildBackgroundDto`. */
    method BuildBackgroundDto(dto: BackgroundDto, theme: Option<string>, description: Option<string>,
                              styleColor: Option<string>, styleImage: Option<Upload>, negative: Option<string>)
      returns (r: Result<BackgroundDto, Error>)
      requires storage.Valid()
      modifies storage
      ensures storage.Valid()
      ensures (storage.State(), r)
           == BuildBackground(old(storage.State()), storage.unwritable, dto, theme, description, styleColor, styleImage, negative)
    {
      var result := dto.(description := description, negative := negative);
      if IsPresent(theme) {
        result := result.(theme := theme);
      }
      if IsPresent(styleColor) {
        result := result.(styleColor := styleColor);
      }
      if styleImage.Some? && !styleImage.value.IsEmpty() {
        var imageBase64 := storage.GetMultipartFileInBase64(styleImage.value, ORIGINALS.Name());
        if imageBase64.Failure? {
          return Failure(imageBase64.error);
        }
        result := result.(styleImage := Some(imageBase64.value));
      }
      r := Success(result);
    }

    /** `buildCreateBackgroundDto`. */
    method BuildCreateBackgroundDto(theme: Option<string>, description: Option<string>, styleColor: Option<string>,
                                    styleImage: Option<Upload>, negative: Option<string>,
                                    height: Option<Int32>, width: Option<Int32>)
      returns (r: Result<CreateBackgroundDto, Error>)
      requires storage.Valid()
      modifies storage
      ensures storage.Valid()
      ensures (storage.State(), r)
           == BuildCreateBackground(old(storage.State()), storage.unwritable, theme, description, styleColor,
                                    styleImage, negative, height, width)
    {
      var dto := NewCreateBackgroundDto;
      if height.Some? {
        dto := dto.(height := height);
      }
      if width.Some? {
        dto := dto.(width := width);
      }
      var background := BuildBackgroundDto(dto.background, theme, description, styleColor, styleImage, negative);
      if background.Failure? {
        return Failure(background.error);
      }
      r := Success(dto.(background := background.value));
    }

    /** `buildInpaintDto`. */
    method BuildInpaintDto(mask: Upload, theme: Option<string>, description: Option<string>,
                           styleColor: Option<string>, styleImage: Option<Upload>, negative: Option<string>)
      returns (r: Result<InpaintDto, Error>)
      requires storage.Valid()
      modifies storage
      ensures storage.Valid()
      ensures (storage.State(), r)
           == BuildInpaint(old(storage.State()), storage.unwritable, mask, theme, description, styleColor,
                           styleImage, negative)
    {
      var maskBase64 := storage.GetMultipartFileInBase64(mask, ORIGINALS.Name());
      if maskBase64.Failure? {
        return Failure(maskBase64.error);
      }
      var dto := NewInpaintDto(maskBase64.value);
      var background := BuildBackgroundDto(dto.background, theme, description, styleColor, styleImage, negative);
      if background.Failure? {
        return Failure(background.error);
      }
      r := Success(dto.(background := background.value));
    }
  }
}
