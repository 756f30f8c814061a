# Pebblely files: processing pipeline and storage, in Dafny

This project models the core of a small Spring service. The service accepts
image uploads, forwards them to the Pebblely image API and keeps both the
originals and the results on disk. The model has three parts:

- **Storage** (`file_storage.dfy`, module `Storage`). `FileStorageService` is a
  class over an abstract disk below the root `"files"`. The disk maps
  (subdirectory, filename) to bytes and also records which subdirectories
  exist. The storing and saving methods are proved equal to pure functions
  (`StoreUpload`, `SaveFromBase64`, `WriteFile`). `LoadAll` is proved to
  list, once each, exactly the names of `Listing`. The remaining methods
  (`MakeDirectory`, `ConvertMultipartFileToFile`, `EncodeFileToBase64`,
  `LoadAsResource`) state their new state and result directly. Every method
  that changes the disk keeps its invariant: each file sits, under a plain
  name, in a subdirectory that exists. Properties are proved about the
  functions: writes overwrite one entry and nothing else, subdirectories are
  created lazily, stored files are listed, listing never yields the
  subdirectory itself, and lookup either returns the entry or fails with the
  not-found message.
- **Base 64** (`base64.dfy`). Encoding follows section 4 of RFC 4648 (standard
  alphabet, '=' padding, no line breaks). Decoding is lenient in the way
  commons-codec's `decodeBase64` is: it stops at the first '=', skips
  characters outside the alphabet and reads the URL-safe '-' and '_' as '+'
  and '/'. Decoding undoes encoding (`DecodeEncode`), so the base64 a store
  returns decodes to exactly the stored bytes.
- **Processing** (`file_processing.dfy`, module `Processing`). It covers the
  three request builders and the four batch operations of
  `FileProcessingService`.
  - Per file, `Step` stores the original under `ORIGINALS`, sends the
    file's base64 to the API and saves the decoded answer under the
    operation's subdirectory with the upload's filename.
  - `Batch` runs the files in list order and stops at the first failure,
    with no rollback.
  - The class `FileProcessingService` runs that loop over a
    `FileStorageService` and a `PebblelyService` (`vendor.dfy`). The
    `PebblelyService` records every request and answers each with a fixed
    reply function. The loop's invariant ties the state to `Batch`.
  - A file goes through exactly when it has a filename, the filesystem
    accepts both its original and its result, and the API answers its
    request (`StepSucceeds`). A batch succeeds exactly when every one of its
    files would (`BatchSucceeds`). A failing one throws the exception of its
    first file that does not go through (`FailingBatchError`).
  - Lemmas state that a successful batch sends one request per file, in
    order, carrying that file's base64. They also state that for each name
    the last file wins, both under `ORIGINALS` and in the output directory.
  - A failing batch stopped at exactly one file (`FailedAt`). All files
    before it succeeded, no later file was attempted, and nothing already
    saved is lost.
  - Entries no file touches are unchanged.

The two spellings of each directory are kept apart, as in the source
(`files_directories.dfy`). The pipeline writes under the constants'
built-in `name()` values (`"ORIGINALS"`, `"UPSCALE"`, ...). The listing page
reads the lower-case `getName()` values (`"originals"`, ...).
`BatchSkipsListedDirectories` proves that no batch changes anything the
listing page reads. This holds in the model because subdirectory names are
compared case-sensitively and because it refuses filenames that are not
plain names. On a case-insensitive filesystem `files/ORIGINALS` and
`files/originals` are one directory. In the source, an upload named
`"../originals/x"` would also reach the listed directory (see "Left out"). `load`
resolves a relative filename by appending it verbatim, ".." segments
included (`Resolve`).

Request bodies (`dtos.dfy`) are datatypes. Every field that holds a Java
reference is an `Option`, because it may be null; the `int` size of an
upscale request is a plain `Int32`. The Java inheritance chain
(`ImageDto` ← `BackgroundDto` ← `CreateBackgroundDto` / `InpaintDto`) becomes
composition: the subclasses embed a `BackgroundDto`. `createBackgrounds` and
`inpaintFiles` overwrite one field of a shared DTO in place. Here the DTO is
carried in the `Operation` value, and the batch methods return it as the
loop leaves it.

Errors are the variants of `Errors.Error`:
- `IOException`, for a refused write or a missing file;
- `NullPointerException`, for an upload without a filename;
- `StorageException` and `StorageFileNotFoundException`, with the source's
  messages;
- `PebblelyException`, with the per-endpoint messages of `PebblelyService`.

## Model

| member | source | states |
|---|---|---|
| FilesDirectories.GetDirectoriesNames | src/main/java/com/adtomiclabs/pebblely/utils/FilesDirectoriesEnum.java:29-32 | one name per constant, in declaration order, each the constant's `getName()` |
| FilesDirectories.ValuesComplete | src/main/java/com/adtomiclabs/pebblely/utils/FilesDirectoriesEnum.java:16-20 | every constant occurs in `values()`, and exactly once |
| FilesDirectories.DirectoriesNamesAre | src/main/java/com/adtomiclabs/pebblely/utils/FilesDirectoriesEnum.java:29-32 | the names are exactly originals, upscale, removed, created, inpaint, in that order |
| FilesDirectories.DirectoriesNamesDistinct | src/main/java/com/adtomiclabs/pebblely/utils/FilesDirectoriesEnum.java:16-20 | the five names are pairwise distinct, so `getName()` is one-to-one |
| FilesDirectories.NameDiffersFromGetName | src/main/java/com/adtomiclabs/pebblely/utils/FilesDirectoriesEnum.java:16-22 | a constant's `name()` differs from its `getName()` and is not among the listed directory names |
| FilesDirectories.FilesDirectory.GetName | src/main/java/com/adtomiclabs/pebblely/utils/FilesDirectoriesEnum.java:16-22 | `getName()` is the non-empty lower-case string each constant is declared with |
| FilesDirectories.FilesDirectory.Name | src/main/java/com/adtomiclabs/pebblely/utils/FilesDirectoriesEnum.java:16-20 | `name()` is the constant's identifier: `getName()` letter by letter in upper case |
| Dtos.NewInpaintDto | src/main/java/com/adtomiclabs/pebblely/model/request/InpaintDto.java:16 | the single-field constructor sets the mask and leaves every background field unset |
| Dtos.SetIfPresent | src/main/java/com/adtomiclabs/pebblely/service/FileProcessingService.java:167-172 | a conditional setter takes a non-null, non-empty argument and otherwise keeps the field |
| Dtos.ApplyBackgroundFields | src/main/java/com/adtomiclabs/pebblely/service/FileProcessingService.java:164-172 | description and negative copied as given; theme and style color set only when present; image and style image untouched |
| Dtos.ApplyDimensions | src/main/java/com/adtomiclabs/pebblely/service/FileProcessingService.java:93-99 | height and width set only from non-null arguments, every other field kept |
| Dtos.AbsentAndEmptyAgree | src/main/java/com/adtomiclabs/pebblely/service/FileProcessingService.java:167-172 | an absent and an empty theme or style color give the same DTO |
| Dtos.UnsetFieldsOmitBlanks | src/main/java/com/adtomiclabs/pebblely/service/FileProcessingService.java:164-172 | from an unset DTO, theme and style color are set exactly when present and never hold ""; description and negative pass "" through |
| Dtos.FreshDimensions | src/main/java/com/adtomiclabs/pebblely/service/FileProcessingService.java:93-99 | on a fresh DTO, height and width end up equal to their arguments, null leaving them unset |
| Base64.Encode | src/main/java/com/adtomiclabs/pebblely/service/FileStorageService.java:131 | the encoding is 4·⌈n/3⌉ characters long; every character but '=' is in the standard alphabet of RFC 4648 (no URL-safe characters); '=' appears only in the last two positions |
| Base64.Decode | src/main/java/com/adtomiclabs/pebblely/service/FileStorageService.java:55 | lenient decoding never fails and yields at most three bytes per four characters |
| Base64.DecodeStopsAtPadding | src/main/java/com/adtomiclabs/pebblely/service/FileStorageService.java:55 | everything from the first '=' on is ignored |
| Base64.DecodeSkipsForeign | src/main/java/com/adtomiclabs/pebblely/service/FileStorageService.java:55 | a character outside the alphabet (other than '=') is skipped wherever it stands |
| Base64.UrlSafeDecodesAsStandard | src/main/java/com/adtomiclabs/pebblely/service/FileStorageService.java:55 | '-' and '_' decode as '+' and '/' |
| Base64.DecodeEncode | src/main/java/com/adtomiclabs/pebblely/service/FileStorageService.java:131 | decoding an encoding gives the original bytes back |
| Base64.EncodeInjective | src/main/java/com/adtomiclabs/pebblely/service/FileStorageService.java:131 | different byte strings have different encodings |
| Storage.Resolve | src/main/java/com/adtomiclabs/pebblely/service/FileStorageService.java:107-110 | `Path.of(root, sub).resolve(name)`: an absolute name is the result itself, the empty name gives the subdirectory's path, any other name is appended after a separator; in every case the result ends with the name verbatim, ".." segments included |
| Storage.WriteFile | src/main/java/com/adtomiclabs/pebblely/service/FileStorageService.java:61-64 | a write succeeds exactly when the subdirectory exists and the filesystem allows the file; then it replaces that one entry, otherwise nothing changes and an IOException names the path; the disk invariant is kept |
| Storage.ReadBase64 | src/main/java/com/adtomiclabs/pebblely/service/FileStorageService.java:125-132 | reading succeeds exactly for a stored file, and its base64 decodes to the stored bytes |
| Storage.StoreUpload | src/main/java/com/adtomiclabs/pebblely/service/FileStorageService.java:41-44 | the subdirectory is created even on failure; no filename fails with NullPointerException before any write; it succeeds exactly when the upload has a name the filesystem lets it write, and otherwise throws the IOException naming that path; on success the entry holds the upload's bytes and the result is their encoding, which decodes back to them; a failure changes no file |
| Storage.SaveFromBase64 | src/main/java/com/adtomiclabs/pebblely/service/FileStorageService.java:54-65 | the subdirectory is created; it succeeds exactly when the filesystem lets the file be written, and otherwise throws the IOException naming that path and changes no file; on success the entry holds the decoded bytes, replacing earlier content; every other entry is unchanged |
| Storage.Listing | src/main/java/com/adtomiclabs/pebblely/service/FileStorageService.java:74-83 | a missing subdirectory fails with "Failed to read stored files"; otherwise a name is listed exactly when a file of that name is stored there |
| Storage.StoredFileIsListed | src/main/java/com/adtomiclabs/pebblely/service/FileStorageService.java:76-79 | after a successful store, listing the subdirectory shows the file |
| Storage.SavedFileIsListed | src/main/java/com/adtomiclabs/pebblely/service/FileStorageService.java:76-79 | after a successful save, listing the subdirectory shows the file |
| Storage.ListingExcludesSubdirectory | src/main/java/com/adtomiclabs/pebblely/service/FileStorageService.java:77-79 | the listing never yields the subdirectory itself, only plain names one level down |
| Storage.FileStorageService.MakeDirectory | src/main/java/com/adtomiclabs/pebblely/service/FileStorageService.java:57-59 | the subdirectory exists afterwards, no file changes and the disk invariant is kept |
| Storage.FileStorageService.Write | src/main/java/com/adtomiclabs/pebblely/service/FileStorageService.java:61-64 | the new state and outcome are those of WriteFile, and the disk invariant is kept |
| Storage.FileStorageService.GetMultipartFileInBase64 | src/main/java/com/adtomiclabs/pebblely/service/FileStorageService.java:41-44 | the new state and result are those of StoreUpload, and the disk invariant is kept |
| Storage.FileStorageService.ConvertMultipartFileToFile | src/main/java/com/adtomiclabs/pebblely/service/FileStorageService.java:112-123 | the directory is made first; a null filename fails with NullPointerException and writes nothing; otherwise the upload is written as WriteFile says; the disk invariant is kept |
| Storage.FileStorageService.EncodeFileToBase64 | src/main/java/com/adtomiclabs/pebblely/service/FileStorageService.java:125-132 | a stored file gives its encoding, which decodes to its bytes; a missing one fails with IOException |
| Storage.FileStorageService.SaveFileFromBase64 | src/main/java/com/adtomiclabs/pebblely/service/FileStorageService.java:54-65 | the new state and outcome are those of SaveFromBase64, and the disk invariant is kept |
| Storage.FileStorageService.LoadAll | src/main/java/com/adtomiclabs/pebblely/service/FileStorageService.java:74-83 | a missing subdirectory fails with "Failed to read stored files"; otherwise every stored name of the subdirectory once, nothing else, and never ""; it succeeds exactly when `Listing` does and lists the same set of names |
| Storage.FileStorageService.LoadAsResource | src/main/java/com/adtomiclabs/pebblely/service/FileStorageService.java:93-105 | an existing entry comes back with its resolved path and content; otherwise StorageFileNotFoundException "Could not read file: " + filename |
| Vendor.Respond | src/main/java/com/adtomiclabs/pebblely/service/PebblelyService.java:40-47 | a call succeeds exactly when the API answers, with that answer; otherwise PebblelyException with the endpoint's message |
| Vendor.PebblelyService.Call | src/main/java/com/adtomiclabs/pebblely/service/PebblelyService.java:40-95 | the request is appended to the call log and the result is Respond's |
| Processing.Operation.OutputDirectory | src/main/java/com/adtomiclabs/pebblely/service/FileProcessingService.java:121-149 | results are never saved under ORIGINALS |
| Processing.Operation.WithImage | src/main/java/com/adtomiclabs/pebblely/service/FileProcessingService.java:137-149 | create-background sets `images` to the one-element list of the file's base64, inpaint sets `image` to it, every other field stays; upscale and remove-background are unchanged; the output directory is kept |
| Processing.Operation.Request | src/main/java/com/adtomiclabs/pebblely/service/FileProcessingService.java:121-149 | upscale sends {image, size}; remove-background sends {image}; create-background sends the shared DTO with images = [b64]; inpaint sends it with image = b64; every other field comes from the shared DTO |
| Processing.WithImageOverwrites | src/main/java/com/adtomiclabs/pebblely/service/FileProcessingService.java:137-149 | setting the image again replaces the earlier one, so a file's request does not depend on earlier files |
| Processing.Step | src/main/java/com/adtomiclabs/pebblely/service/FileProcessingService.java:121-149 | the file goes through exactly when it has a filename, both writes are allowed and the API answers; otherwise the exception is that of the first of store, call and save that fails; a failed store means no vendor call and no file change; once the original is stored the file's vendor call is made, and a later failure (API error or refused save) leaves exactly the original written; success means one call with the file's request, the original under ORIGINALS and the decoded answer under the output directory, both with the upload's filename; only those two entries can change |
| Processing.Batch | src/main/java/com/adtomiclabs/pebblely/service/FileProcessingService.java:33-78 | entries are never removed, the call log only grows, at most one call per file, the disk invariant is kept |
| Processing.FailureIsFinal | src/main/java/com/adtomiclabs/pebblely/service/FileProcessingService.java:34-36 | once a prefix has failed, the later files change nothing |
| Processing.SuccessfulBatchSnoc | src/main/java/com/adtomiclabs/pebblely/service/FileProcessingService.java:34-36 | a successful batch is a successful batch of all but the last file followed by that file's step |
| Processing.SuccessfulBatchNamesEveryFile | src/main/java/com/adtomiclabs/pebblely/service/FileStorageService.java:118 | a batch succeeds only if every upload has a filename |
| Processing.SuccessfulBatchLeavesLastImage | src/main/java/com/adtomiclabs/pebblely/service/FileProcessingService.java:137-149 | after a successful batch the shared DTO holds the last file's image, or is untouched for no files |
| Processing.SuccessfulBatchRequest | src/main/java/com/adtomiclabs/pebblely/service/FileProcessingService.java:137-149 | the request for a file is the same whichever files came before it |
| Processing.SuccessfulBatchCalls | src/test/java/com/adtomiclabs/pebblely/service/FileProcessingServiceTest.java:36-48 | a successful batch makes exactly one vendor call per file, in list order, each with that file's request |
| Processing.BatchSucceeds | src/main/java/com/adtomiclabs/pebblely/service/FileProcessingService.java:33-78 | a batch succeeds exactly when every one of its files would go through on its own |
| Processing.SuccessfulBatchStoresOriginal | src/main/java/com/adtomiclabs/pebblely/service/FileProcessingService.java:121-149 | after a successful batch ORIGINALS holds, for each name, the bytes of the last upload of that name |
| Processing.SuccessfulBatchStoresResult | src/main/java/com/adtomiclabs/pebblely/service/FileProcessingService.java:121-149 | after a successful batch the output directory holds, for each name, the decoded answer to the last upload of that name |
| Processing.FailingBatchStopsAtFirstFailure | src/test/java/com/adtomiclabs/pebblely/service/FileProcessingServiceTest.java:51-62 | a failing batch is a successful prefix followed by one failing step; later files are never attempted |
| Processing.FailingBatchError | src/main/java/com/adtomiclabs/pebblely/service/FileProcessingService.java:33-78 | a failing batch throws the exception of its first file that does not go through, and all files before it go through |
| Processing.StepDependsOnRequest | src/main/java/com/adtomiclabs/pebblely/service/FileProcessingService.java:137-149 | whether a file goes through, and what it throws, depend on the operation only through its request and output directory |
| Processing.FailingBatchKeepsEarlierWork | src/main/java/com/adtomiclabs/pebblely/service/FileProcessingService.java:34-36 | everything saved before the failure stays, contents included: when the failing file's original could be stored, the disk afterwards is the earlier disk plus that original and exactly its one vendor call was made; otherwise neither the disk nor the call log changes |
| Processing.BatchFrame | src/main/java/com/adtomiclabs/pebblely/service/FileProcessingService.java:121-149 | an entry that no file's name and the two directories reach is unchanged |
| Processing.BatchSkipsListedDirectories | src/main/java/com/adtomiclabs/pebblely/service/FileProcessingService.java:116-148 | no batch changes an entry of a directory named by `getDirectoriesNames()` |
| Processing.BuildBackground | src/main/java/com/adtomiclabs/pebblely/service/FileProcessingService.java:163-179 | without a non-empty style image nothing is written and the result is the background fields; with one, it is stored under ORIGINALS and the result's style image is its encoding; the build succeeds exactly when that store can, and otherwise throws the store's exception |
| Processing.BuildCreateBackground | src/main/java/com/adtomiclabs/pebblely/service/FileProcessingService.java:92-102 | height and width equal their arguments and images is unset; the disk, background and exception are those of `buildBackgroundDto` on an unset background, so the style image is stored and encoded; success exactly when the style image can be stored |
| Processing.BuildInpaint | src/main/java/com/adtomiclabs/pebblely/service/FileProcessingService.java:115-119 | the mask is stored first and a failed store fails the build with its exception; otherwise the result is the mask's encoding with the background `buildBackgroundDto` builds from an unset one on the disk holding the mask, with its disk and exception; success exactly when both the mask and the style image can be stored |
| Processing.FileProcessingService.ProcessFile | src/main/java/com/adtomiclabs/pebblely/service/FileProcessingService.java:121-149 | the new state, outcome and shared DTO are those of Step |
| Processing.FileProcessingService.ProcessFiles | src/main/java/com/adtomiclabs/pebblely/service/FileProcessingService.java:33-78 | the loop leaves the state, outcome and shared DTO of Batch; it succeeds exactly when every file goes through, and otherwise throws the first failing file's exception |
| Processing.FileProcessingService.UpscaleImages | src/main/java/com/adtomiclabs/pebblely/service/FileProcessingService.java:33-37 | state and outcome of the upscale batch; success exactly when every file goes through, otherwise the first failing file's exception |
| Processing.FileProcessingService.RemoveBackgrounds | src/main/java/com/adtomiclabs/pebblely/service/FileProcessingService.java:46-50 | state and outcome of the remove-background batch; success exactly when every file goes through, otherwise the first failing file's exception |
| Processing.FileProcessingService.CreateBackgrounds | src/main/java/com/adtomiclabs/pebblely/service/FileProcessingService.java:60-64 | state, outcome and final shared DTO of the create-background batch; success exactly when every file goes through, otherwise the first failing file's exception; after success the DTO's images hold the last file's base64, all else unchanged |
| Processing.FileProcessingService.InpaintFiles | src/main/java/com/adtomiclabs/pebblely/service/FileProcessingService.java:74-78 | state, outcome and final shared DTO of the inpaint batch; success exactly when every file goes through, otherwise the first failing file's exception; after success the DTO's image is the last file's base64, all else unchanged |
| Processing.FileProcessingService.BuildBackgroundDto | src/main/java/com/adtomiclabs/pebblely/service/FileProcessingService.java:163-179 | new storage state and result are those of BuildBackground |
| Processing.FileProcessingService.BuildCreateBackgroundDto | src/main/java/com/adtomiclabs/pebblely/service/FileProcessingService.java:92-102 | new storage state and result are those of BuildCreateBackground |
| Processing.FileProcessingService.BuildInpaintDto | src/main/java/com/adtomiclabs/pebblely/service/FileProcessingService.java:115-119 | new storage state and result are those of BuildInpaint |

## Left out

- The HTTP transport to the image API, and the controller's routing, pages
  and status mapping. The API is a fixed reply function of the request. A
  `None` reply stands for any exception the client throws. A reply always
  carries its `data`; a response whose `data` is null is not modelled.
- The credits and outpaint endpoints of `PebblelyService`: no modelled
  operation calls them. Logging is left out.
- The real filesystem. Its refusals are a fixed set of unwritable entries.
  A write either fully succeeds or changes nothing, so partial writes on a
  full disk are not modelled. An unchecked `mkdirs` that fails is not
  modelled either; such a directory is taken to exist.
- Path traversal through filenames is deliberately not modelled. The disk
  holds only plain names directly inside a subdirectory, and any other name
  ("", ".", "..", a name holding '/', an absolute name) is refused. In the
  source such names are followed through the real tree: an upload named
  "../UPSCALE/x" writes files/UPSCALE/x, one named "../../x" writes outside
  the storage root, and `loadAsResource` serves whatever file such a name
  reaches.
- Processing.BatchFrame: holds only because non-plain names are refused; in
  the source an upload whose name climbs into another subdirectory changes
  an entry this lemma says is kept.
- Processing.BatchSkipsListedDirectories: likewise; an upload named
  "../originals/x" would write into a directory the listing page reads.
- Processing.BatchSkipsListedDirectories: the model assumes a case-sensitive
  filesystem. Subdirectory names are compared exactly, so "ORIGINALS" and
  "originals" are different directories; on the default macOS and Windows
  filesystems they are the same directory, and the listing page would show
  every stored original and result.
- Storage.WriteFile: a name holding '/' or "..", which the source opens
  through the real tree, fails here with an IOException.
- Storage.Resolve: `Path`'s parsing, which collapses repeated '/' and drops
  a trailing '/', is not modelled; nor is the subdirectory argument being
  absolute or empty.
- A stored file always reads back whole. The single `read` into a buffer of
  `file.length()` cannot come back short in this model, and no read fails
  after a successful write.
- Storage.FileStorageService.LoadAll: the directory walk has depth 2, but
  the model's disk holds only files directly in a subdirectory, so only
  those are listed. The walk's order is left open rather than specified.
  Failures other than a missing subdirectory are not modelled.
- Storage.FileStorageService.LoadAsResource: a filename that resolves to a
  directory exists in the source and would come back as a resource.
  Examples are "", "." and "..". The model only returns stored files for
  such names, and fails for them otherwise. A name that climbs out of the
  subdirectory or is absolute is looked up as a name inside it, so it fails
  where the source would serve the file the path reaches.
- Base64.Decode: commons-codec's handling of whitespace and of strict mode
  is not modelled. Every character outside the alphabet is skipped.
- The IOException message is the file's path, root/subdirectory/name. The
  exact text the JDK produces is not modelled.
- The shared DTO of `createBackgrounds` and `inpaintFiles` is passed by value
  and returned, not aliased. Only the caller's view after the loop is
  modelled.
- The fields of `CreateBackgroundDto` and `UpscaleDto` are the ones
  `FileProcessingService` sets (images, height, width; image, size). A fresh
  `CreateBackgroundDto` has all of them unset. `TransformDto`, the themes
  list and the configuration classes are not part of this model.
- Concurrent requests on the shared filesystem are not modelled.
