# Document portal ingestion and retrieval core, in Dafny

This project models the core of a document portal built on LangChain and FAISS. The portal lets users upload PDFs, Word files, text and Markdown. It saves each upload under a session folder, loads the files as documents, splits them into chunks and indexes the chunks in a FAISS vector store. A conversational chain then answers questions over that store. The portal also has two tools that run beside this path. One compares two uploaded PDFs and the other analyses a single PDF. A separate script, `costs.py`, builds a customer-journey graph from a bank-marketing table and asks a language model to choose among candidate paths.

The model covers these components, one module per source file:

- **FileIo** (`utils/file_io.py`): session ids, and saving uploads under sanitised, randomised names.
- **DocumentIngestion**, **DocumentLoading** and **FaissIndex** (`src/document_ingestion/data_ingestion.py`):
  - saving uploads and loading them by suffix;
  - the manifest of content fingerprints that keeps `add_documents` from embedding a chunk twice;
  - `ChatIngestor.build_retriever`.
- **MultiDocIngestion** (`src/multidoc_chat/data_ingestion.py`): `DocumentIngestor`, which writes each supported upload to a fresh temporary file and loads it with the loader its extension selects.
- **DocCompareIngestion** and **DocCompareSessions** (`src/doc_compare/data_ingestion.py`, `src/doc_compare/ingestion.py`):
  - the comparison folder and reading PDFs page by page;
  - combining documents in sorted or listing order;
  - dated session folders and pruning old ones.
- **DocAnalyzer** (`src/doc_analyzer/data_ingestion.py`): the analysis session folder, saving a PDF and reading it back.
- **ModelLoader** (`utils/model_loader.py`): choosing the embedding provider and the chat model from the configuration.
- **SingleDocChat**, **DocumentChat** and **Prompts** (`src/singledoc_chat/retrieval.py`, `src/document_chat/retrieval.py`):
  - prompt lookup with fallback keys;
  - the per-session history store;
  - normalising answers.
- **Costs** (`costs.py`):
  - which table rows are kept;
  - how often each directed edge job → contact → poutcome → y is seen;
  - how the model's reply selects a path.

Shared modules:

- **PyText**: the parts of Python's `str`, `pathlib` and `os.path` that the code depends on:
  - `strip`, `lower`, `rfind` and `join`;
  - `Path.name`, `suffix` and `stem`;
  - `os.path.join` and `basename`;
  - `str(int)` and `int(str)`.
- **SessionIds**: timestamped ids.
- **NameOrder**: Python's string order and `sorted`.
- **Portal**: shared values.
- **Wrappers**: `Option` and `Result`.

## How the model is built

- **Files and failures.** The filesystem is a map from path to bytes. Each operation takes the map and returns the new one. An exception the source raises is an `Err` carrying the message of the exception the source re-raises.
- **Loops.** Code that loops is a `method` with a `while` or `for` loop. Its `ensures` ties the result to a recursive specification function, and the properties are proved as lemmas about that function.
- **Stateful objects.** The FAISS manager and the index directory it writes are `class`es. So are the conversational RAG objects and the shared history store. Their methods state the new state as a step function of the old one.
- **Fixed objects.** Objects whose fields are only set in their constructor (`DocumentHandler`, `DocumentIngestor`, `ChatIngestor`, `ModelLoader`) are datatypes built by a function.
- **Parameters for what is not modelled.** The following are parameters:
  - everything the code gets from outside: the clock, uuid tokens, environment variables, the working directory;
  - whether a directory can be created;
  - PyMuPDF's page texts, UTF-8 decoding, the LangChain loaders and the splitter;
  - SHA-256, the embedding provider and the language model.

## Behaviour worth knowing

- **The first build stores chunks twice.** In `build_retriever`, a first build into an empty index directory seeds the store with every chunk text (`FAISS.from_texts`), then passes the same chunks to `add_documents` (`src/document_ingestion/data_ingestion.py:158-159`). Every chunk with a first-new fingerprint is therefore stored twice (`FaissIndex.FirstBuildStoresTwice`, `FaissIndex.FirstBuildDuplicates`). A later build from the same chunks adds nothing (`FaissIndex.RebuildAddsNothing`).
- **One unreadable file aborts the call.** `load_documents` has no per-file `try` (`src/document_ingestion/data_ingestion.py:39-50`), so one unreadable file fails the whole call (`DocumentLoading.FirstFailureWins`). The same holds for the loop of `ingest_files` (`src/multidoc_chat/data_ingestion.py:62-103`; `MultiDocIngestion.IngestHalts`).
- **`.docx` is accepted but never loaded.** `SUPPORTED_EXTENSIONS` in `src/document_ingestion/data_ingestion.py:15` lists `.docx`, but `load_documents` reads only `.pdf`, `.txt` and `.md` and skips every other suffix (`src/document_ingestion/data_ingestion.py:41-50`; `DocumentLoading.LoadOneBySuffix`).
- **A manifest without "rows" breaks `add_documents`.** A manifest that parses to a truthy JSON value without a `"rows"` mapping is kept as `_meta` (`src/document_ingestion/data_ingestion.py:64`). `add_documents` then fails as soon as it is given a document, at `self._meta["rows"]` (`src/document_ingestion/data_ingestion.py:92`; `FaissIndex.AddStep`).
- **One message for every PDF read failure.** `read_pdf` in `src/doc_compare/data_ingestion.py:47-62` re-raises an encrypted PDF, a missing file and an unopenable file alike as "Error reading PDF document" (`DocCompareIngestion.ReadPdf`).

## Model

| member | source | states |
|---|---|---|
| PyText.StripTruthy | src/document_ingestion/data_ingestion.py:44 | `s.strip()` is truthy exactly when `s` holds a non-whitespace character |
| PyText.Strip | costs.py:28 | `s.strip()`: whitespace removed at both ends |
| PyText.StripEmptyIffBlank | costs.py:28 | `s.strip()` is empty exactly when every character of `s` is whitespace |
| PyText.HasTextIffNotBlank | src/document_ingestion/data_ingestion.py:44 | the recursive "has text" test holds exactly when some character is not whitespace |
| PyText.LowerAt | utils/file_io.py:31 | `lower()` maps each character on its own and keeps the length |
| PyText.Lower | utils/file_io.py:31 | `s.lower()` character by character, with the length kept |
| PyText.Rfind | src/doc_analyzer/data_ingestion.py:40 | the index found holds the character and no later index does; -1 when there is none |
| PyText.JoinAppend | src/doc_compare/data_ingestion.py:62 | joining a concatenation is the two joins with one separator between them |
| PyText.Join | src/doc_compare/data_ingestion.py:76 | `sep.join(parts)`: the parts with `sep` between consecutive ones |
| PyText.PathName | utils/file_io.py:31 | the final path component never contains a slash and is never "." |
| PyText.Suffix | utils/file_io.py:31 | a suffix is empty or a dot followed by at least one dot-free character |
| PyText.StemSuffix | utils/file_io.py:38-39 | the stem followed by the suffix gives back the final component |
| PyText.Stem | utils/file_io.py:38 | `PurePath(p).stem`: the final component without its suffix |
| PyText.Basename | src/doc_analyzer/data_ingestion.py:40 | `os.path.basename` has no slash and ends the path |
| PyText.OsPathJoinInjective | src/document_ingestion/data_ingestion.py:132-137 | one directory joined with two different relative names gives two different paths |
| PyText.OsPathJoin | src/doc_analyzer/data_ingestion.py:44 | `os.path.join(a, b)`: an absolute `b` wins; otherwise `b` after `a`, with one "/" unless `a` is empty or ends in a separator |
| PyText.OsPathJoinChild | src/multidoc_chat/data_ingestion.py:72 | under a plain directory, `os.path.join` with a relative name is `Path(dir) / name` |
| PyText.ChildName | utils/file_io.py:40 | the final component of `dir / name` is `name` |
| PyText.SuffixOfChild | utils/file_io.py:39-40 | a name built as dot-free base plus one-dot extension has that suffix and that stem |
| PyText.DecimalRoundTrip | costs.py:96 | `str(n)` reads back as `n` |
| PyText.PadRoundTrip | utils/file_io.py:17 | a zero-padded `strftime` field reads back as its number |
| SessionIds.StampInjective | utils/file_io.py:17 | `%Y%m%d_%H%M%S` of two valid clock readings is equal only when the readings are equal |
| SessionIds.Stamp | utils/file_io.py:17 | `strftime('%Y%m%d_%H%M%S')`: 15 characters with `_` at index 8 |
| SessionIds.TimedId | utils/file_io.py:17 | `f"{prefix}_{stamp}_{hex}"`, as long as the prefix plus 17 plus the token |
| SessionIds.TimedIdInjective | src/multidoc_chat/data_ingestion.py:33 | `session_<stamp>_<hex>` determines its prefix, clock reading and token |
| SessionIds.ShortIdInjective | src/document_ingestion/data_ingestion.py:19-20 | `prefix_hex` determines its prefix and token |
| SessionIds.ShortId | src/document_ingestion/data_ingestion.py:19-20 | `f"{prefix}_{hex}"`, as long as the prefix plus 1 plus the token |
| SessionIds.DatedName | src/doc_compare/ingestion.py:18 | the dated session folder name is 23 characters and starts with "session" |
| Portal.Contents | src/document_ingestion/data_ingestion.py:155 | the texts of the documents, one per document, in order |
| Portal.ContentsAppend | src/document_ingestion/data_ingestion.py:155 | the texts of a concatenation are the concatenated texts |
| Costs.Bump | costs.py:39-43 | an existing edge's count goes up by one, a new edge gets count 1, no other edge changes |
| Costs.HasInvalidCell | costs.py:27-29 | some cell of the path is missing, or reads "unknown" once stripped and lower-cased |
| Costs.FailureThenYes | costs.py:31-33 | poutcome reads "failure" and y reads "yes", once stripped and lower-cased |
| Costs.Kept | costs.py:27-33 | the row passes both skips |
| Costs.Path | costs.py:35 | the stripped job, contact, poutcome and y cells of the row: four nodes |
| Costs.CountsSpec | costs.py:24-43 | the counts after the rows one after another, each kept row counting each consecutive pair of its path |
| Costs.PathEdges | costs.py:37-38 | a path of n nodes has n-1 consecutive pairs |
| Costs.BuildEdgeCounts | costs.py:24-43 | the graph-building loop produces the row-by-row counts `CountsSpec` |
| Costs.CountPath | costs.py:37-43 | the inner loop counts each consecutive pair of the path, in order |
| Costs.BumpAllCount | costs.py:37-43 | counting a list of edges adds each edge's number of occurrences and adds exactly those edges |
| Costs.CountsAreOccurrences | costs.py:24-43 | every edge's count is how often it occurs as a consecutive pair on the path of a kept row |
| Costs.EdgeIffOccurs | costs.py:24-43 | the graph has an edge exactly when it occurs on some kept row's path |
| Costs.PositiveCounts | costs.py:39-43 | every edge in the graph has count at least 1 |
| Costs.DroppedRowsIgnored | costs.py:27-33 | rows with a missing or "unknown" cell, and failure-then-yes rows, leave no trace in the graph |
| Costs.CountsTotal | costs.py:35-43 | the counts add up to three times the number of kept rows |
| Costs.GroupsDigits | costs.py:96 | a numeral with single underscores between digits is all digits once they are removed |
| Costs.DigitsAreGroups | costs.py:96 | a plain run of digits is a valid numeral with nothing to remove |
| Costs.ParseSigned | costs.py:96 | `int(t)` of a string without surrounding whitespace: an optional sign, then digits with single underscores between them; anything else raises |
| Costs.ParseInt | costs.py:96 | `int(s)`: surrounding whitespace ignored |
| Costs.ReplyNumber | costs.py:96 | the integer the reply's text holds; none when the reply has no text or the text is not an integer |
| Costs.Numeral | costs.py:88 | `str(n)` has no whitespace at either end |
| Costs.ParseIntNumeral | costs.py:96 | `int(str(n)) == n` for every integer, negative ones included |
| Costs.ChooseIndex | costs.py:95-99 | `paths[int(reply) - 1]` with Python's negative indexing; a non-number or out-of-range reply falls back to the first path; `None` exactly when there are no paths |
| Costs.ChoosePath | costs.py:84-99 | the chosen path is `None` exactly when there are no candidate paths |
| Costs.ChooseListedNumber | costs.py:86-88 | replying with the number printed before a path selects that path |
| Costs.ChooseFromEnd | costs.py:96-97 | replying `-j` selects the path `j+1` places from the end |
| FileIo.GenerateSessionId | utils/file_io.py:14-17 | the id is the prefix, `_`, a 15-character stamp, `_` and the 8 hex digits |
| FileIo.OriginalName | utils/file_io.py:30 | `filename`, else `name`, else "file"; never empty |
| FileIo.Extension | utils/file_io.py:31 | the lower-cased suffix of the original name |
| FileIo.ReplaceUnsafe | utils/file_io.py:38 | each character outside `[a-zA-Z0-9_-]` becomes `_`, the others stay |
| FileIo.Sanitize | utils/file_io.py:38 | the safe name has one character per stem character, all in `[a-z0-9_-]`; `_` sits exactly where the stem had `_` or an unsafe character, and every kept character is the stem's character lower-cased |
| FileIo.SanitizeIdempotent | utils/file_io.py:38 | sanitising a sanitised name changes nothing |
| FileIo.UniqueName | utils/file_io.py:38-39 | `f"{safe_name}_{hex}{ext}"` |
| FileIo.SavedPath | utils/file_io.py:38-40 | the unique name inside the target folder |
| FileIo.SupportedShape | utils/file_io.py:11 | each supported extension is a dot followed by dot-free letters |
| FileIo.SafeBase | utils/file_io.py:38-39 | `safe_name_token` is non-empty, has no dot or slash and only `[a-z0-9_-]` |
| FileIo.SavedPathWellNamed | utils/file_io.py:31-40 | an accepted upload is saved inside the target folder, with its lower-cased extension as suffix and a safe stem |
| FileIo.WritesPrefix | utils/file_io.py:28 | the writes of a prefix of the uploads are a prefix of the writes |
| FileIo.SavedCount | utils/file_io.py:28-48 | one path is returned per upload with a supported extension |
| FileIo.SavedWellNamed | utils/file_io.py:28-48 | every returned path lies in the target folder, keeps a supported extension and has a safe stem |
| FileIo.WriteAll | utils/file_io.py:28-51 | the loop returns the paths and directory tree of the writes carried out in order |
| FileIo.SaveSpec | utils/file_io.py:20-55 | the accepted uploads written in order at their saved paths: the paths and the tree afterwards |
| FileIo.SaveUploadedFiles | utils/file_io.py:20-55 | an unusable target folder raises "Failed to save uploaded files" with nothing written; otherwise the saved paths and files are those of `SaveSpec` |
| FileIo.NothingAcceptedNothingSaved | utils/file_io.py:33-35 | when no upload has a supported extension nothing is written and no path is returned |
| DocumentIngestion.GenerateSessionId | src/document_ingestion/data_ingestion.py:19-20 | the id is the prefix, `_` and the 8 hex digits |
| DocumentIngestion.Store | src/document_ingestion/data_ingestion.py:25-34 | one path is returned per write |
| DocumentIngestion.StorePaths | src/document_ingestion/data_ingestion.py:27-33 | the i-th returned path is the i-th target |
| DocumentIngestion.SaveAllPaths | src/document_ingestion/data_ingestion.py:23-34 | one path per upload; upload i goes to its `name` (or `upload_<hex>`) joined under the output folder |
| DocumentIngestion.StoreFiles | src/document_ingestion/data_ingestion.py:27-32 | writing changes exactly the written paths and keeps every other file |
| DocumentIngestion.SaveAllFiles | src/document_ingestion/data_ingestion.py:23-34 | saving adds exactly the returned paths and keeps every other file as it was |
| DocumentIngestion.StoreLastWriter | src/document_ingestion/data_ingestion.py:28-32 | a written path holds the bytes of the last write to it |
| DocumentIngestion.SaveAllLastWriter | src/document_ingestion/data_ingestion.py:23-34 | a saved path holds the bytes of the last upload written there |
| DocumentIngestion.SaveUploadedFiles | src/document_ingestion/data_ingestion.py:23-34 | the loop returns the paths and files of `SaveAll` |
| DocumentIngestion.SaveAll | src/document_ingestion/data_ingestion.py:23-34 | each upload written in order to its name, or `upload_<hex>`, under the output folder: the paths written and the tree afterwards |
| DocumentIngestion.ResolveDirIsolates | src/document_ingestion/data_ingestion.py:132-137 | with session folders on, distinct relative session ids get distinct folders; with them off, every session shares the base |
| DocumentIngestion.ResolveDir | src/document_ingestion/data_ingestion.py:132-137 | `base / session_id` when session folders are on, otherwise `base` |
| DocumentIngestion.NewChatIngestor | src/document_ingestion/data_ingestion.py:119-128 | a missing or empty session id is generated; both folders are resolved from it |
| DocumentIngestion.BuildRetriever | src/document_ingestion/data_ingestion.py:145-166 | saves, loads, splits and indexes; an unreadable file, no documents, or embeddings that `load_embeddings()` cannot build give "Failed to build retriever" with the index untouched; otherwise the index takes the build step's state |
| DocumentLoading.PageDocs | src/document_ingestion/data_ingestion.py:40-45 | one document per page with text, carrying its source, its 1-based page number and that page's text |
| DocumentLoading.PageDocsOrdered | src/document_ingestion/data_ingestion.py:42-45 | page documents come in strictly increasing page order |
| DocumentLoading.PageDocsComplete | src/document_ingestion/data_ingestion.py:42-45 | every page with text has its document |
| DocumentLoading.LoadOneBySuffix | src/document_ingestion/data_ingestion.py:46-50 | a `.txt` or `.md` file gives one document carrying only its source; any suffix other than pdf/txt/md gives none |
| DocumentLoading.LoadOne | src/document_ingestion/data_ingestion.py:40-50 | by lower-cased suffix: a PDF gives one document per page with text, `.txt` and `.md` give one document carrying its source, and any other suffix gives none; a file that cannot be read is an error |
| DocumentLoading.LoadAll | src/document_ingestion/data_ingestion.py:37-51 | the documents of every path in order; the first file that cannot be read decides the result |
| DocumentLoading.GatherConcatenates | src/document_ingestion/data_ingestion.py:37-51 | when every file loads, the documents are each file's documents concatenated in order |
| DocumentLoading.GatherAbortsOnError | src/document_ingestion/data_ingestion.py:37-51 | a failure on a prefix of the files is the whole call's result |
| DocumentLoading.FirstFailureWins | src/document_ingestion/data_ingestion.py:37-51 | the first file that cannot be read decides the result, whatever follows it |
| DocumentLoading.LoadFile | src/document_ingestion/data_ingestion.py:40-50 | the per-file body produces `LoadOne` of the path |
| DocumentLoading.LoadDocuments | src/document_ingestion/data_ingestion.py:37-51 | the loop produces `LoadAll` of the paths |
| MultiDocIngestion.NewDocumentIngestor | src/multidoc_chat/data_ingestion.py:18-55 | fails with "Initialization error" exactly when a folder cannot be made or `ModelLoader()` fails; a missing or empty id becomes `session_<stamp>_<hex>`; session folders are the id under each base |
| MultiDocIngestion.GeneratedSessionsDiffer | src/multidoc_chat/data_ingestion.py:33-37 | ids generated from different clock readings or tokens give different session folders |
| MultiDocIngestion.LoaderCoverage | src/multidoc_chat/data_ingestion.py:81-90 | an extension has a loader exactly when it is supported, so the fallback branch is dead |
| MultiDocIngestion.LoaderFor | src/multidoc_chat/data_ingestion.py:81-90 | `.pdf` picks PyPDFLoader, `.docx` Docx2txtLoader, `.txt` and `.md` TextLoader, and nothing else has a loader |
| MultiDocIngestion.TempPath | src/multidoc_chat/data_ingestion.py:71-72 | `f"{hex}{ext}"` inside the session temporary folder |
| MultiDocIngestion.TempPathKeepsType | src/multidoc_chat/data_ingestion.py:71-72 | a temporary file keeps its upload's extension and loader; distinct tokens give distinct files |
| MultiDocIngestion.TempPathsDiffer | src/multidoc_chat/data_ingestion.py:71-72 | distinct tokens give distinct temporary files, whatever the extensions |
| MultiDocIngestion.IngestStep | src/multidoc_chat/data_ingestion.py:62-93 | one pass: a `None` name raises and stops the loop; an unsupported extension is skipped; otherwise the bytes are written to the temporary file and its loader's documents are appended, a raising loader stopping the loop |
| MultiDocIngestion.Run | src/multidoc_chat/data_ingestion.py:62-93 | the passes over the uploads in order |
| MultiDocIngestion.IngestHalts | src/multidoc_chat/data_ingestion.py:62-103 | once the loop has raised, the remaining uploads change nothing |
| MultiDocIngestion.IngestKeys | src/multidoc_chat/data_ingestion.py:76-77 | the loop adds exactly its temporary files to the directory tree |
| MultiDocIngestion.IngestWrites | src/multidoc_chat/data_ingestion.py:76-77 | every file that is not a temporary file keeps its contents, and every temporary file holds some upload's bytes |
| MultiDocIngestion.IngestWritesOwnBytes | src/multidoc_chat/data_ingestion.py:62-77 | an accepted upload that the loop reaches while still running is saved at its own temporary path, with its own bytes, when no later upload draws its token |
| MultiDocIngestion.ItemDocs | src/multidoc_chat/data_ingestion.py:62-93 | what one upload adds to the documents: a `None` name raises, an unsupported extension adds nothing, and a supported one adds what its loader reads from its temporary file or raises |
| MultiDocIngestion.IngestGathers | src/multidoc_chat/data_ingestion.py:62-93 | the loop keeps running exactly when every upload's documents are read, and then its documents are each upload's, concatenated in upload order |
| MultiDocIngestion.IngestSavedTypes | src/multidoc_chat/data_ingestion.py:65-72 | every temporary file has a supported suffix |
| MultiDocIngestion.DatasAppend | src/multidoc_chat/data_ingestion.py:77 | the contents of one more item are the earlier contents plus its bytes |
| MultiDocIngestion.ItemDatas | src/multidoc_chat/data_ingestion.py:77 | the contents of the items are the uploads' bytes |
| MultiDocIngestion.RunUnsupported | src/multidoc_chat/data_ingestion.py:67-69 | items with no supported extension write nothing and gather nothing |
| MultiDocIngestion.AllUnsupportedRejected | src/multidoc_chat/data_ingestion.py:57-103 | a batch with no supported upload writes nothing and fails with "Ingestion error" |
| MultiDocIngestion.Outcome | src/multidoc_chat/data_ingestion.py:95-123 | "Ingestion error" when the loop stopped, no documents were read or the index could not be built; otherwise the k=5 retriever over the session index and the store of the 1000/100 chunks |
| MultiDocIngestion.IngestOne | src/multidoc_chat/data_ingestion.py:63-93 | one pass of the loop is `IngestStep` |
| MultiDocIngestion.IngestLoop | src/multidoc_chat/data_ingestion.py:60-93 | the loop is `Run` over the uploads' extensions and bytes |
| MultiDocIngestion.IngestFiles | src/multidoc_chat/data_ingestion.py:57-123 | the files written are the loop's; the result is "Ingestion error" on a loop failure, no documents or an indexing failure, else the session retriever with k=5 over the split chunks |
| DocAnalyzer.DataDir | src/doc_analyzer/data_ingestion.py:21-24 | a non-empty argument, else `DATA_STORAGE_PATH` when set, else `cwd/data/document_analysis` |
| DocAnalyzer.NewDocumentHandler | src/doc_analyzer/data_ingestion.py:17-33 | fails exactly when the folder cannot be made; a missing id becomes `session_<stamp>_<hex>`; the session path is the id under the data folder |
| DocAnalyzer.JoinStaysInside | src/doc_analyzer/data_ingestion.py:26 | a relative name joined under a folder starts with the folder and ends with the name |
| DocAnalyzer.GeneratedSessionInsideDataDir | src/doc_analyzer/data_ingestion.py:25-26 | a generated session folder lies inside the data folder and ends with the id |
| DocAnalyzer.RfindSkipsTail | src/doc_analyzer/data_ingestion.py:40 | characters after the last slash do not move it |
| DocAnalyzer.BasenameOfJoin | src/doc_analyzer/data_ingestion.py:40-44 | the base name of a joined slash-free name is the name |
| DocAnalyzer.SavePdf | src/doc_analyzer/data_ingestion.py:35-53 | rejected with "Error saving PDF" exactly when the base name does not end in ".pdf" ignoring case; otherwise written under the session folder by base name |
| DocAnalyzer.PdfName | src/doc_analyzer/data_ingestion.py:40-41 | the lower-cased base name ends in ".pdf" |
| DocAnalyzer.SavedPdfInsideSession | src/doc_analyzer/data_ingestion.py:40-46 | an accepted PDF lands inside the session folder under its own base name, holding its bytes |
| DocAnalyzer.ConcatAppend | src/doc_analyzer/data_ingestion.py:65-66 | concatenating two page lists is concatenating their texts |
| DocAnalyzer.ConcatLength | src/doc_analyzer/data_ingestion.py:65-66 | the text is as long as all pages together |
| DocAnalyzer.Concat | src/doc_analyzer/data_ingestion.py:63-66 | the page texts one after another, with nothing between them |
| DocAnalyzer.ReadPdf | src/doc_analyzer/data_ingestion.py:55-73 | "Error reading PDF" exactly when the file is missing or unreadable; otherwise the page texts with nothing between them |
| DocCompareIngestion.WithoutPdfs | src/doc_compare/data_ingestion.py:16-17 | exactly the `*.pdf` files directly in the folder are gone; every other file keeps its contents |
| DocCompareIngestion.GlobPdf | src/doc_compare/data_ingestion.py:16 | a file directly inside the folder whose name ends in ".pdf", case-sensitive |
| DocCompareIngestion.DeleteExistingFile | src/doc_compare/data_ingestion.py:14-22 | unlinking the matches one at a time, in any order, leaves `WithoutPdfs` |
| DocCompareIngestion.SaveUploadedFiles | src/doc_compare/data_ingestion.py:24-45 | the folder's PDFs are deleted first; a name not ending in ".pdf" gives "Error saving uploaded files"; otherwise the reference and then the actual file are written under the folder |
| DocCompareIngestion.SavedPairIsTheOnlyPdfs | src/doc_compare/data_ingestion.py:24-41 | after a save the folder's PDFs are exactly the two uploads, the actual file wins on equal names, and nothing outside is touched |
| DocCompareIngestion.ReadPdf | src/doc_compare/data_ingestion.py:47-62 | the loop produces `ReadPdfSpec`: missing, unopenable or encrypted files fail with "Error reading PDF document", otherwise the labelled pages with text joined by newlines |
| DocCompareIngestion.ReadPdfSpec | src/doc_compare/data_ingestion.py:47-62 | "Error reading PDF document" for a missing, unopenable or encrypted file; otherwise the labelled sections of the pages with text, joined by newlines |
| DocCompareIngestion.BlankPagesNoSections | src/doc_compare/data_ingestion.py:53-57 | pages without text give no sections |
| DocCompareIngestion.ReadPdfBlank | src/doc_compare/data_ingestion.py:47-59 | a readable PDF with no text on any page reads as "" |
| DocCompareIngestion.ReadPdfSections | src/doc_compare/data_ingestion.py:53-57 | every page with text appears, labelled with its 1-based number |
| DocCompareIngestion.SectionsFromPages | src/doc_compare/data_ingestion.py:53-57 | every section is the label and text of a page with text |
| DocCompareIngestion.Entries | src/doc_compare/data_ingestion.py:69-71 | one entry per listed name |
| DocCompareIngestion.DocParts | src/doc_compare/data_ingestion.py:73-74 | one `Document:<name>\n<content>` part per collected file, in order |
| DocCompareIngestion.ReadEntry | src/doc_compare/data_ingestion.py:70-71 | the loop body classifies a name as `EntryOf` does |
| DocCompareIngestion.CollectContents | src/doc_compare/data_ingestion.py:69-71 | the first loop collects `Collect` of the names, stopping at the first unreadable PDF |
| DocCompareIngestion.CombineDocuments | src/doc_compare/data_ingestion.py:64-82 | the result is `CombineSpec`: PDFs in sorted name order, rendered and joined by blank lines, any read error reported as "Error occurred while combining" |
| DocCompareIngestion.CombineSpec | src/doc_compare/data_ingestion.py:64-82 | the PDF files in sorted name order, rendered `Document:<name>\n<content>` and joined by blank lines; a PDF that cannot be read gives "Error occurred while combining" |
| DocCompareIngestion.CollectStops | src/doc_compare/data_ingestion.py:71-82 | after a read error the remaining names change nothing |
| DocCompareIngestion.CombineIgnoresListingOrder | src/doc_compare/data_ingestion.py:69 | the combined text does not depend on the order the folder is listed in |
| DocCompareIngestion.SkippedCollectNothing | src/doc_compare/data_ingestion.py:70 | entries that are all skipped collect nothing |
| DocCompareIngestion.NoPdfsCollectNothing | src/doc_compare/data_ingestion.py:69-71 | names none of which is a PDF file collect nothing |
| DocCompareIngestion.NoPdfsCombineEmpty | src/doc_compare/data_ingestion.py:64-78 | a folder with no PDF file combines to "" |
| DocCompareSessions.SessionDir | src/doc_compare/ingestion.py:11-18 | the session folder is `session_<stamp>` under the fixed comparison root |
| DocCompareSessions.SessionDirsDistinct | src/doc_compare/ingestion.py:15-18 | runs started at different clock readings get different folders |
| DocCompareSessions.SaveUploadedFiles | src/doc_compare/ingestion.py:32-53 | the folder's PDFs are deleted, then the reference and the actual file are written, with no extension check |
| DocCompareSessions.SaveKeepsOnlyThePair | src/doc_compare/ingestion.py:32-49 | only the two written files can be PDFs of the folder; the actual file wins on equal names; other non-PDF files keep their contents |
| DocCompareSessions.Latin1 | src/doc_compare/ingestion.py:60 | Latin-1 decoding gives one character per byte, with the byte's code |
| DocCompareSessions.Latin1RoundTrip | src/doc_compare/ingestion.py:60 | encoding the decoded text gives the bytes back, so decoding drops nothing |
| DocCompareSessions.CombineDocuments | src/doc_compare/ingestion.py:55-69 | the loop produces `CombineSpec`: one section per listed `*.pdf`, in listing order; one that cannot be opened fails with "Error combining documents" |
| DocCompareSessions.CombineSpec | src/doc_compare/ingestion.py:55-69 | one section per listed name ending in ".pdf", in listing order; a name that cannot be opened fails |
| DocCompareSessions.CombineStops | src/doc_compare/ingestion.py:58-61 | after a failure the remaining names change nothing |
| DocCompareSessions.CombineLength | src/doc_compare/ingestion.py:58-63 | a combined text is as long as its sections; with no PDF it is "" |
| DocCompareSessions.Candidates | src/doc_compare/ingestion.py:74 | exactly the listed directories whose name starts with "session" |
| DocCompareSessions.InsertByAge | src/doc_compare/ingestion.py:73-77 | inserting keeps the list newest first and adds exactly the one entry |
| DocCompareSessions.ByAge | src/doc_compare/ingestion.py:73-77 | the sessions ordered newest first, a permutation of the candidates |
| DocCompareSessions.NewestFirstPairwise | src/doc_compare/ingestion.py:73-77 | in a newest-first list every entry is at least as recent as every later one |
| DocCompareSessions.SliceStart | src/doc_compare/ingestion.py:78 | the start of Python's slice `s[k:]`, never past the end |
| DocCompareSessions.RemoveTreesExactly | src/doc_compare/ingestion.py:78-79 | a file survives exactly when it lies below none of the removed folders, and keeps its contents |
| DocCompareSessions.RemoveTrees | src/doc_compare/ingestion.py:78-79 | each listed session folder's tree removed in turn |
| DocCompareSessions.CleanOldSessions | src/doc_compare/ingestion.py:71-87 | removes exactly the sessions from index `keep_latest` on, in newest-first order, with all their files |
| DocCompareSessions.RemoveSessions | src/doc_compare/ingestion.py:78-79 | the loop removes each listed folder's tree in turn |
| DocCompareSessions.KeepsNewest | src/doc_compare/ingestion.py:71-84 | `max(0, n - keep_latest)` folders are removed, only session directories, and every kept one is at least as recent as every removed one |
| DocCompareSessions.PlainFilesKept | src/doc_compare/ingestion.py:78-79 | plain files directly in the root are never removed |
| NameOrder.LexTotal | src/doc_compare/data_ingestion.py:69 | any two names are ordered one way or the other |
| NameOrder.LexAntisymmetric | src/doc_compare/data_ingestion.py:69 | names ordered both ways are equal |
| NameOrder.LexTransitive | src/doc_compare/data_ingestion.py:69 | the string order is transitive |
| NameOrder.LexReflexive | src/doc_compare/data_ingestion.py:69 | every name is ordered before itself |
| NameOrder.AscendingPairwise | src/doc_compare/data_ingestion.py:69 | in an ascending list every name is no greater than every later one |
| NameOrder.Insert | src/doc_compare/data_ingestion.py:69 | inserting keeps the list ascending and adds exactly the one name |
| NameOrder.Sorted | src/doc_compare/data_ingestion.py:69 | `sorted(names)` is ascending and a permutation of the names |
| NameOrder.HeadIsLeast | src/doc_compare/data_ingestion.py:69 | the first name of an ascending list is its least |
| NameOrder.TailMultiset | src/doc_compare/data_ingestion.py:69 | dropping the first name removes exactly that name |
| NameOrder.SameHead | src/doc_compare/data_ingestion.py:69 | two ascending lists of the same names start with the same name |
| NameOrder.AscendingUnique | src/doc_compare/data_ingestion.py:69 | an ascending list is determined by its names |
| NameOrder.SortedIgnoresOrder | src/doc_compare/data_ingestion.py:69 | `sorted` gives the same list for any order of the same names |
| FaissIndex.FingerprintIgnoresPage | src/document_ingestion/data_ingestion.py:75-80 | the page number takes no part in a fingerprint |
| FaissIndex.SameSourceSameKey | src/document_ingestion/data_ingestion.py:75-80 | chunks of one source without a row id share one fingerprint, whatever their text |
| FaissIndex.SourceKeysDifferFromDigests | src/document_ingestion/data_ingestion.py:75-80 | a source-based key never equals a SHA-256 hex digest |
| FaissIndex.Fingerprint | src/document_ingestion/data_ingestion.py:75-80 | `"<source>::<row_id>"`, with an empty row id when there is none, for metadata with a source; otherwise the SHA-256 hex digest of the text |
| FaissIndex.AdmitKeys | src/document_ingestion/data_ingestion.py:89-94 | after a batch every fingerprint of it is a key and no key was removed |
| FaissIndex.Admit | src/document_ingestion/data_ingestion.py:89-94 | walks the batch in order, admitting each document whose fingerprint is not yet a key and recording that key |
| FaissIndex.FpSetAppendOne | src/document_ingestion/data_ingestion.py:91 | the fingerprints of one more document are the earlier ones plus its own |
| FaissIndex.FpSetAppend | src/document_ingestion/data_ingestion.py:91 | the fingerprints of a concatenation are the union of both |
| FaissIndex.FpSetMembers | src/document_ingestion/data_ingestion.py:91 | a key is a fingerprint of the batch exactly when some document has it |
| FaissIndex.AdmitSelectsFirstNew | src/document_ingestion/data_ingestion.py:89-94 | a document is admitted exactly when its fingerprint is neither a key nor that of an earlier document of the batch, in input order |
| FaissIndex.AdmitFrom | src/document_ingestion/data_ingestion.py:90-94 | the loop from position i on admits the first-new documents from i on |
| FaissIndex.AdmitCount | src/document_ingestion/data_ingestion.py:89-100 | the number admitted is the number of distinct new fingerprints |
| FaissIndex.AdmitKnown | src/document_ingestion/data_ingestion.py:92 | a batch whose fingerprints are all keys admits nothing |
| FaissIndex.SourceKeyMember | src/document_ingestion/data_ingestion.py:78-79 | without row ids, each source contributes the key `source::` |
| FaissIndex.KeysPerSource | src/document_ingestion/data_ingestion.py:78-79 | without row ids, a batch has no more fingerprints than sources |
| FaissIndex.AdmitAtMostOnePerSource | src/document_ingestion/data_ingestion.py:75-100 | without row ids one call admits at most one chunk per distinct source |
| FaissIndex.AdmitAllDistinct | src/document_ingestion/data_ingestion.py:89-94 | pairwise distinct fingerprints none of which is a key are all admitted |
| FaissIndex.InitialMeta | src/document_ingestion/data_ingestion.py:60-66 | a missing, unreadable or falsy manifest becomes empty rows; a manifest with rows keeps them |
| FaissIndex.LoadOrCreateStep | src/document_ingestion/data_ingestion.py:102-114 | an existing index is loaded, and one that cannot be loaded fails; with no index, no texts is "No FAISS index and no texts provided", and otherwise the texts become a new store written to `index.faiss` |
| FaissIndex.AddStep | src/document_ingestion/data_ingestion.py:85-100 | no store gives "Call load_or_create() first"; a manifest without rows fails on any document; otherwise new documents are admitted and their keys recorded, and only when something was admitted are they embedded, the index written and then the manifest |
| FaissIndex.AddStepAppendsNew | src/document_ingestion/data_ingestion.py:85-100 | on a loaded store `add_documents` returns the number of distinct new fingerprints, appends the first-new documents and records every fingerprint |
| FaissIndex.AddStepWrites | src/document_ingestion/data_ingestion.py:96-99 | the directory changes only when something was admitted, then the index is written before the manifest |
| FaissIndex.AddStepTwice | src/document_ingestion/data_ingestion.py:85-100 | adding the same batch again admits nothing and changes nothing |
| FaissIndex.LoadNeverOverwrites | src/document_ingestion/data_ingestion.py:102-109 | an existing index is loaded, never overwritten |
| FaissIndex.AdmitBatch | src/document_ingestion/data_ingestion.py:89-94 | the admission loop produces `Admit` of the keys and the batch |
| FaissIndex.FaissManager.constructor | src/document_ingestion/data_ingestion.py:56-70 | the manifest is read once into `_meta` and the embeddings `load_embeddings()` built are kept; no store is loaded yet |
| FaissIndex.NewFaissManager | src/document_ingestion/data_ingestion.py:56-70 | no manager is made exactly when `load_embeddings()` raises; otherwise a fresh manager over the directory, with the manifest read and no store loaded |
| FaissIndex.FaissManager.LoadOrCreate | src/document_ingestion/data_ingestion.py:102-114 | the result and the new directory and manager state are `LoadOrCreateStep` of the old ones |
| FaissIndex.FaissManager.AddDocuments | src/document_ingestion/data_ingestion.py:85-100 | the result and the new directory and manager state are `AddStep` of the old ones, "Call load_or_create() first" before a load |
| FaissIndex.BuildStep | src/document_ingestion/data_ingestion.py:154-159 | `load_or_create` with every chunk text, then `add_documents` with the chunks, on a fresh manager |
| FaissIndex.FirstBuildStoresTwice | src/document_ingestion/data_ingestion.py:154-159 | a first build seeds the store with every chunk and then adds the first-new chunks a second time |
| FaissIndex.DistinctAllNew | src/document_ingestion/data_ingestion.py:89-94 | with distinct fingerprints and no keys every document is new |
| FaissIndex.FirstBuildDuplicates | src/document_ingestion/data_ingestion.py:154-159 | with distinct fingerprints the first build holds every chunk text twice |
| FaissIndex.RebuildAddsNothing | src/document_ingestion/data_ingestion.py:145-162 | building again from the same chunks adds nothing and writes nothing |
| ModelLoader.NewModelLoader | utils/model_loader.py:21-28 | a non-empty config is kept; otherwise the loaded one is used |
| ModelLoader.ProviderName | utils/model_loader.py:46 | a falsy provider reads as "", a string is lower-cased, any other value has no `.lower` |
| ModelLoader.LoadEmbeddings | utils/model_loader.py:35-64 | a client is built only for a truthy model name; HuggingFace exactly for huggingface/hf/local, Google exactly for google when available, with the configured name |
| ModelLoader.EmbeddingNameRequired | utils/model_loader.py:47-50 | with a string or absent provider, the missing-name error is raised exactly when the model name is missing or falsy |
| ModelLoader.UnknownNotNameMissing | utils/model_loader.py:46-64 | the unknown-provider error never reads as the missing-name one |
| ModelLoader.LowerIdempotent | utils/model_loader.py:46 | lower-casing twice is lower-casing once |
| ModelLoader.EmbeddingsDependOnNames | utils/model_loader.py:45-64 | only the provider name and the model name decide the outcome |
| ModelLoader.ProviderCaseInsensitive | utils/model_loader.py:46-56 | a provider in any case selects what its lower-case spelling selects |
| ModelLoader.HuggingFaceSelected | utils/model_loader.py:52-54 | each HuggingFace spelling, in any case, builds the local embeddings with the configured name |
| ModelLoader.GoogleSelected | utils/model_loader.py:56-62 | google builds Google's embeddings when the package is there and raises ImportError when not |
| ModelLoader.MissingProviderUnknown | utils/model_loader.py:46-64 | a missing provider is an unknown provider with an empty name |
| ModelLoader.LoadLlm | utils/model_loader.py:67-81 | a chat model is built exactly when the llm section has a truthy model name; temperature defaults to 0 and max tokens to 2048 only when absent |
| ModelLoader.NoLlmSectionFails | utils/model_loader.py:72-75 | with no llm section the missing-name error is raised |
| ModelLoader.LlmDefaultsExplicit | utils/model_loader.py:77-78 | giving the defaults explicitly builds the same chat model as leaving them out |
| Prompts.FirstPresent | src/singledoc_chat/retrieval.py:65-67 | the entry of the earliest candidate key in the registry; none exactly when no candidate is there |
| Prompts.FirstPresentAt | src/document_chat/retrieval.py:44-46 | the key present earliest in the list decides the result |
| Prompts.Resolve | src/singledoc_chat/retrieval.py:57-73 | the loop returns the first hit, or "Required prompt missing from PROMPT_REGISTRY" |
| Prompts.SingleDocKeys | src/singledoc_chat/retrieval.py:59-64 | four candidates, the enum member first |
| Prompts.DocumentChatKeys | src/document_chat/retrieval.py:38-43 | four candidates, the value first |
| Prompts.DocumentChatFallbacks | src/document_chat/retrieval.py:36-51 | the value wins over the name, the name over the lower-cased value, the upper-cased value comes last |
| Prompts.SingleDocFallbacks | src/singledoc_chat/retrieval.py:57-67 | the member wins, and the lower-cased `str(member)` comes last |
| SingleDocChat.SessionKey | src/singledoc_chat/retrieval.py:88-89 | the configurable session id if given, else the instance's own; a non-dict `configurable` raises |
| SingleDocChat.ExtractAnswer | src/singledoc_chat/retrieval.py:125-128 | `answer`, else `result`, else "" for a dict; `str()` for other responses; "" for None |
| SingleDocChat.LoadRetrieverFromFaiss | src/singledoc_chat/retrieval.py:99-116 | a k=5 retriever over the path exactly when embeddings load, the path is a directory and FAISS loads it |
| SingleDocChat.ChatHistory.constructor | src/singledoc_chat/retrieval.py:91 | a new history is empty |
| SingleDocChat.HistoryStore.constructor | src/singledoc_chat/retrieval.py:20 | the shared store starts empty |
| SingleDocChat.ConversationalRag.constructor | src/singledoc_chat/retrieval.py:22-31 | the instance keeps its session id, the shared store, the retriever and both prompts |
| SingleDocChat.ConversationalRag.GetSessionHistory | src/singledoc_chat/retrieval.py:85-97 | the stored history of the selected id, a fresh empty one inserted when the id is new; no other entry changes |
| SingleDocChat.ConversationalRag.Invoke | src/singledoc_chat/retrieval.py:118-139 | runs the chain on the session's history and normalises the response; a failing chain is "some error in invoking the RAG" |
| SingleDocChat.Create | src/singledoc_chat/retrieval.py:22-55 | fails exactly when the LLM does not load or a prompt is missing; otherwise both prompts are resolved by the single-document keys |
| SingleDocChat.SharedHistory | src/singledoc_chat/retrieval.py:20-92 | two instances sharing the store get the very same history for one id |
| DocumentChat.FormatDocsSmall | src/document_chat/retrieval.py:97-99 | no documents give "", one document gives its own text |
| DocumentChat.FormatDocsAppend | src/document_chat/retrieval.py:97-99 | formatting two lists is formatting each with a blank line between |
| DocumentChat.FormatDocs | src/document_chat/retrieval.py:97-99 | the page contents joined by a blank line |
| DocumentChat.MakePayload | src/document_chat/retrieval.py:74-75 | the question and the history, a missing history read as empty |
| DocumentChat.Answer | src/document_chat/retrieval.py:77-81 | never empty: the output itself, or "no answer generated" for an empty output |
| DocumentChat.AnswerSentinel | src/document_chat/retrieval.py:77-81 | the sentinel is returned exactly when the output is empty or is the sentinel text |
| DocumentChat.ConversationalRag.constructor | src/document_chat/retrieval.py:15-29 | the chain is built over the retriever and the answering prompt |
| DocumentChat.ConversationalRag.LoadRetrieverFromFaiss | src/document_chat/retrieval.py:53-70 | on success the retriever becomes a k=5 retriever over the path and the chain is rebuilt; on failure nothing changes and "Retry creating the retriever" is reported |
| DocumentChat.ConversationalRag.Invoke | src/document_chat/retrieval.py:72-84 | the chain's output or the sentinel, never empty; a failing chain is "Retry invoking" |
| DocumentChat.Create | src/document_chat/retrieval.py:15-34 | fails exactly when the retriever is missing, the LLM does not load or a prompt is missing |

## Left out

- Logging, `mkdir` side effects, and failures of individual `open`/`write`/`unlink` calls. A folder that cannot be created is a parameter (`dirWritable`, `dirsOk`, `mkdirOk`) where the source reports it.
- Path normalisation. Paths are strings joined with `/` or with `os.path.join`, and `..` and repeated slashes are not resolved.
- Unicode case mapping beyond ASCII and U+212A KELVIN SIGN. Non-ASCII digits accepted by Python's `int()` are also left out.
- PyMuPDF, the LangChain loaders, `RecursiveCharacterTextSplitter`, FAISS similarity search, embeddings, SHA-256 and the language models. Each is a function or flag parameter, because their internals are outside the portal's code.
- The float parts of `costs.py`: `norm_duration`, per-edge `delay` and `cost`, `evaluate_path`, `find_feasible_paths` (which needs `nx.all_simple_paths`), the plots, reading the CSV and the Groq client. Only the integer edge counts and the reply parsing are modelled.
- Costs.Folded: `str(p)` of a non-string cell is not modelled, because every cell is taken as text or missing.
- Concurrency, and `RunnableWithMessageHistory` appending turns to a history. SingleDocChat.ConversationalRag.Invoke does not state which messages the chain adds to the session history.
- SingleDocChat.ConversationalRag.GetSessionHistory and Prompts: keys are compared by value. Python compares an enum member with a string by identity unless the enum is a `str` enum.
- FaissIndex.FaissManager.constructor: a Dafny constructor cannot fail, so it takes embeddings that are already built. `FaissIndex.NewFaissManager` models the `load_embeddings()` call in `__init__`, which makes no manager when that call raises.
- DocumentIngestion.NewChatIngestor: `ModelLoader()` or `mkdir` raising inside `ChatIngestor.__init__` is not modelled. Those exceptions leave the constructor unwrapped, and the folder flags are parameters elsewhere.
- FaissIndex: `metadatas` passed to `FAISS.from_texts` are not kept, because the store is modelled by its texts.
- DocCompareSessions.Entry: `os.path.getmtime` is an integer, because only the order of times matters. That the sort is stable is built into `InsertByAge` but is not stated as a lemma.
- DocCompareSessions.CleanOldSessions: `rmtree` errors are ignored by the source and not modelled.
- FileIo.SaveUploadedFiles and MultiDocIngestion.IngestFiles: an upload's extension and target path are computed by a pure function before the write loop runs over them. The effect is the same, since that computation has no side effects.
- `api/main.py`, the loggers, the exception class and `src/multidoc_chat/retrieval.py` are not part of this model. They hold no logic of their own beyond calling the modelled components.
