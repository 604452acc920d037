# BDAProj query-time services, modelled in Dafny

This project models the service layer of a retrieval-augmented question
answering gateway over Wikipedia pages. It has four parts:

- **Embeddings adapter** (`embeddings.dfy`, module `EmbeddingsAdapter`). This is
  `OllamaEmbeddings`. It posts texts to Ollama's `/api/embeddings` endpoint,
  first as one bulk request and then, if that is not accepted, one request per
  text. It reads the vectors out of four response shapes, tried in a fixed
  order: OpenAI-like `{"data": [...]}`, `{"embedding": v}`,
  `{"embeddings": vs}` and a bare list of lists.
- **Text generator** (`generator.dfy`, module `Generation`). This is
  `OllamaGenerator`. It builds the prompt from the context and the question,
  posts it to `/api/generate` with streaming on, and relays every non-empty
  line of the reply as raw bytes followed by a newline. A non-200 reply
  becomes a single error payload.
- **Index builder** (`updater.dfy`, module `IndexUpdater`). It reads the title
  list (stripped, blank lines dropped) and downloads the pages whose text file
  is missing. A failed download skips its title; a page that cannot be written
  ends the build. It splits every document into chunks, in order, and chooses
  the directory the index is persisted to.
- **Retriever** (`retriever.dfy`, module `Retriever`). This is `LlamaRetriever`,
  a class with one shared instance. `__new__` creates that instance once.
  `__init__` re-runs on it at every construction, so the last construction
  that succeeds decides the loaded index, and a failed one leaves the previous
  index in place.

Helper modules:

- `wrappers.dfy`: `Option` and `Result`.
- `pystr.dfy`: the Python string built-ins the services use.
- `json.dfy`: decoded JSON values, with Python truthiness, `dict.get` and `v[0]`.

The model takes every external effect as a parameter:

- The HTTP POST is an oracle from request to reply: a function `post`.
- The Wikipedia download is `download`; how writing a page's file goes (saved, `open` raised, or the
  write raised after `open` created the file) is `write`.
- The directory reader is `readDir`, the token splitter `split`.
- The environment is `env`, a map.
- The filesystem is `files`, a map from path to contents.
- Path existence is `pathExists`, index loading `load`, the query engine `engine`. Each
  construction of the retriever carries its own `pathExists` and `load`, since the index
  directory can be built between two constructions.
- `json.dumps({"error": text}).encode()` is `errorPayload`.

Each looping or state-changing operation is a method. Its `ensures` ties the
result, or the new state, to a recursive specification function, and lemmas
state what the source promises about that function.

Three behaviours of the code that are easy to misread:

- **Retriever lifecycle.** The retriever is not first-caller-wins, and a
  failed construction is not permanent. `_instance` is set before `__init__`
  runs, and `__init__` runs again on the shared instance at every
  construction. So a later construction with an existing path succeeds on the
  same object, and the last successful path wins (`Retriever.LastSuccessWins`,
  `Retriever.FailureIsNotPermanent`).
- **Stream relay.** The generator does not decode the backend's events or
  buffer partial lines. It forwards each raw non-empty line from `iter_lines`
  followed by `b"\n"` (`Generation.StreamResponse`).
- **Search results.** `query` returns whatever the index's query engine
  answers and does not check `top_k`. The model keeps the answer opaque and
  takes any `topK` (`Retriever.LlamaRetriever.Query`).

## Model

| member | source | states |
|---|---|---|
| PyStr.RStrip | api/service/ollama.py:10 | `rstrip(c)` gives a prefix of the input that does not end in `c`, and only copies of `c` are removed |
| PyStr.RStripSplits | api/service/ollama_embeddings.py:19 | the input is the stripped URL followed by a run of `/`, and stripping twice changes nothing |
| PyStr.StripSpec | api/service/llama_index_updater.py:22 | `strip()` gives the slice between leading and trailing whitespace; it starts and ends with non-space, and it is empty iff the line is blank |
| PyStr.ReplaceChar | api/service/llama_index_updater.py:35 | every `a` becomes `b`, every other character stays in place, and the length is kept; no `a` is left when `a != b` |
| PyStr.OrElse | api/service/llama_index_updater.py:66 | `x or default` picks `x` exactly when it is a non-empty string |
| PyStr.EnvGet | api/service/ollama_embeddings.py:19 | `os.environ.get(key, default)` gives the variable when set, the default otherwise |
| JsonValues.Get | api/service/ollama_embeddings.py:32 | `dict.get` gives `None` for an absent key |
| JsonValues.Or | api/service/ollama_embeddings.py:32 | `a or b` is one of the two, and is `a` when `a` is truthy |
| JsonValues.Index0 | api/service/ollama_embeddings.py:76 | `v[0]` succeeds exactly on a non-empty list or string, and gives a list's first element |
| EmbeddingsAdapter.ParseResponse | api/service/ollama_embeddings.py:27-48 | the looping parser computes exactly the ordered four-shape parse |
| EmbeddingsAdapter.DataEntriesErrExtends | api/service/ollama_embeddings.py:31-34 | an item that is not a dict makes the whole parse raise, so the loop may stop there |
| EmbeddingsAdapter.DataEntriesSpec | api/service/ollama_embeddings.py:29-34 | the "data" shape succeeds iff every item is a dict; it then gives one entry per item, in order, each `item.get("embedding") or item.get("embeddings")` |
| EmbeddingsAdapter.ParseOpenAIShape | api/service/ollama_embeddings.py:29-34 | parsing `{"data": [{"embedding": v}...]}` gives the vectors back in order, and a falsy vector comes back as `None` |
| EmbeddingsAdapter.ParseShapeOrder | api/service/ollama_embeddings.py:29-46 | for any dict: a list under "data" is parsed entry by entry, raising `AttributeError` iff some item is not a dict; otherwise "embedding" (even beside a non-list "data") wins over "embeddings", whatever other keys there are; with neither the result is `None`; a bare list is kept iff its first element is a list |
| EmbeddingsAdapter.ParseMixedKeys | api/service/ollama_embeddings.py:29-42 | a reply with "embeddings" next to "model", and one with a non-list "data" next to "embedding", are both recognised |
| EmbeddingsAdapter.ParseNoneIff | api/service/ollama_embeddings.py:27-48 | the parse returns `None` exactly when no shape matches or "embeddings" is null |
| EmbeddingsAdapter.PerItemErrExtends | api/service/ollama_embeddings.py:66-76 | an exception in one fallback iteration is the result of the whole loop |
| EmbeddingsAdapter.PerItemSpec | api/service/ollama_embeddings.py:65-78 | the fallback succeeds iff every per-text request succeeds; it then holds one vector per text, in input order, each the first element of that text's parse |
| EmbeddingsAdapter.PerItemFirstError | api/service/ollama_embeddings.py:66-76 | the first failing text decides the fallback's exception |
| EmbeddingsAdapter.PerItemErrorIsFirst | api/service/ollama_embeddings.py:66-76 | a failed fallback failed at a text whose predecessors all succeeded, with that text's exception |
| EmbeddingsAdapter.FallbackOnePerInput | api/service/ollama_embeddings.py:50-78 | with the bulk attempt rejected, `_call_embeddings` returns exactly one vector per input, in order, or raises |
| EmbeddingsAdapter.BulkCountUnchecked | api/service/ollama_embeddings.py:51-58 | an accepted bulk parse is returned as is: two inputs can yield one vector |
| EmbeddingsAdapter.QueryVectorSpec | api/service/ollama_embeddings.py:84-87 | `embed_query` is the single per-text request after a rejected bulk attempt, and element 0 of the bulk parse otherwise |
| EmbeddingsAdapter.OllamaEmbeddings.constructor | api/service/ollama_embeddings.py:18-20 | the base URL is the argument, else `OLLAMA_BASE_URL`, else the default, without trailing slashes; an omitted model is "all-minilm" |
| EmbeddingsAdapter.OllamaEmbeddings.TryBulk | api/service/ollama_embeddings.py:51-62 | the bulk parse is used only for status 200, a decodable body and a parse that neither raises nor returns `None` |
| EmbeddingsAdapter.OllamaEmbeddings.FetchOne | api/service/ollama_embeddings.py:66-76 | one fallback iteration: RuntimeError on non-200, ValueError on an unknown shape, else `parsed[0]` |
| EmbeddingsAdapter.OllamaEmbeddings.CallEmbeddings | api/service/ollama_embeddings.py:22-78 | `_call_embeddings` computes the bulk-then-fallback result |
| EmbeddingsAdapter.OllamaEmbeddings.EmbedDocuments | api/service/ollama_embeddings.py:80-82 | `embed_documents` is `_call_embeddings` on the texts |
| EmbeddingsAdapter.OllamaEmbeddings.EmbedQuery | api/service/ollama_embeddings.py:84-87 | `embed_query` is element 0 of `_call_embeddings([text])` |
| Generation.BuildPrompt | api/service/ollama.py:14-20 | the prompt is the context header, the context, the question header, the question and the answer instruction, in that order |
| Generation.PromptRoundTrip | api/service/ollama.py:14-20 | given the context's length, context and question are read back out of the prompt |
| Generation.PromptAmbiguous | api/service/ollama.py:14-20 | without that length the template is ambiguous: moving a question header and text between context and question gives the same prompt |
| Generation.NonEmpty | api/service/ollama.py:39-41 | the kept lines are non-empty lines of the stream, no more of them than there are lines |
| Generation.RelayIsMapOfFilter | api/service/ollama.py:39-47 | the relay frames the non-empty lines, in order |
| Generation.RelayAppend | api/service/ollama.py:39-47 | the relay streams: the output for a longer stream extends the output for its prefix |
| Generation.RelayUnframes | api/service/ollama.py:39-47 | every output ends in a newline after at least one byte, and dropping the newlines gives back the non-empty lines |
| Generation.RelaySkipsEmpty | api/service/ollama.py:40-41 | an empty line anywhere yields nothing |
| Generation.ResplitFramed | api/service/ollama.py:44 | splitting the concatenated framed lines at newlines gives back the lines |
| Generation.RelayResplits | api/service/ollama.py:39-47 | a consumer re-splitting the relayed body reads exactly the backend's non-empty lines |
| Generation.OllamaGenerator.constructor | api/service/ollama.py:9-12 | omitted arguments take the defaults "http://localhost:11434" and "llama3"; the base URL is kept without trailing slashes |
| Generation.OllamaGenerator.Payload | api/service/ollama.py:22-31 | the request goes to `/api/generate` with the built prompt, 512 tokens, temperature 0 and streaming on |
| Generation.OllamaGenerator.StreamResponse | api/service/ollama.py:22-47 | non-200 yields the one error payload; 200 yields the relay of the reply's lines |
| IndexUpdater.LoadTitles | api/service/llama_index_updater.py:20-23 | there are never more titles than lines |
| IndexUpdater.TitlesTrimmed | api/service/llama_index_updater.py:20-23 | every title is non-empty, with no leading or trailing whitespace |
| IndexUpdater.LoadTitlesSpec | api/service/llama_index_updater.py:20-23 | the titles are the stripped non-blank lines in file order, and a line is kept iff it is not blank |
| IndexUpdater.FileNameSpec | api/service/llama_index_updater.py:35 | the file name is the title with spaces made underscores plus ".txt"; it holds no space and is reversible for titles without underscores |
| IndexUpdater.FileNamesCollide | api/service/llama_index_updater.py:35 | "Big Data" and "Big_Data" get the same file name |
| IndexUpdater.SharedFileDownloadedOnce | api/service/llama_index_updater.py:34-45 | of two titles sharing a missing file, once the first's page is saved the second is not tried, so only one is downloaded |
| IndexUpdater.DownloadPages | api/service/llama_index_updater.py:34-45 | the download loop computes the disk it leaves, pages written before a failure included, the write failure that ended it if any, and the titles it tried |
| IndexUpdater.DownloadOne | api/service/llama_index_updater.py:35-45 | one iteration leaves an existing file alone, tries the download otherwise, and writes the page only when it arrives; a failed write raises and leaves whatever file `open` had created |
| IndexUpdater.SyncKeepsExisting | api/service/llama_index_updater.py:34-36 | an existing file is never overwritten, whether or not the loop completes |
| IndexUpdater.SyncAppend | api/service/llama_index_updater.py:34-45 | the loop over `a + b` is the loop over `a` and, unless that failed, the loop over `b` on the disk `a` left |
| IndexUpdater.WrittenPagesSurvive | api/service/llama_index_updater.py:34-45 | pages written for earlier titles stay on disk, even when a later write fails |
| IndexUpdater.SyncPaths | api/service/llama_index_updater.py:34-45 | when the loop completes, a path exists iff it existed or some title with that path downloads |
| IndexUpdater.AttemptsOnlyMissing | api/service/llama_index_updater.py:34-40 | downloads are tried only for listed titles whose file was missing |
| IndexUpdater.MissingWasAttempted | api/service/llama_index_updater.py:38-43 | when the loop completes, a title still without a file was tried and its download failed; the loop went on |
| IndexUpdater.WriteFailureEndsLoop | api/service/llama_index_updater.py:34-45 | a failed loop failed writing the last title tried, whose page had arrived; its file exists afterwards iff `open` had created it, holding what was written before the failure; when every arriving page is saved the loop completes |
| IndexUpdater.AbortIgnoresLaterTitles | api/service/llama_index_updater.py:44-45 | after a failed write no later title is tried and the failure stands |
| IndexUpdater.NextRunKeepsLeftovers | api/service/llama_index_updater.py:34-36 | whatever one run leaves on disk, truncated files included, a later run keeps and never downloads again |
| IndexUpdater.EmptyFileAfterFailedWrite | api/service/llama_index_updater.py:35-45 | a write that fails right after `open` leaves an empty file, ends the run, and makes every later run skip that title |
| IndexUpdater.ChunkDocuments | api/service/llama_index_updater.py:54-60 | the chunk loops compute the chunk list of the documents |
| IndexUpdater.ChunksAppend | api/service/llama_index_updater.py:54-60 | chunking distributes over concatenation of the document list |
| IndexUpdater.ChunkAt | api/service/llama_index_updater.py:54-60 | chunk `k` of document `i` sits after all chunks of earlier documents and is a copy of the document with that chunk's text |
| IndexUpdater.TargetPath | api/service/llama_index_updater.py:66 | the index goes to `index_path` when it is a non-empty string, else to `INDEX_DIR` |
| IndexUpdater.BuildIndexFromTitles | api/service/llama_index_updater.py:26-70 | the build downloads, reads, chunks and persists to the chosen path; a failed write ends it with that error; either way the disk holds what the downloads wrote |
| Retriever.EffectivePath | api/service/llama_retriever.py:17-18 | the path is `index_path` when it is a non-empty string, else "data/index"; it is never empty |
| Retriever.InitOutcome | api/service/llama_retriever.py:17-22 | `__init__` succeeds iff the path exists and loads; on success the index is the loaded one; on failure it is unchanged; a missing path raises FileNotFoundError |
| Retriever.FailuresKeepIndex | api/service/llama_retriever.py:19-22 | constructions that all fail leave the index as it was |
| Retriever.LastSuccessWins | api/service/llama_retriever.py:12-22 | after any series of constructions the index is the one loaded by the last successful one, whatever failed before or after it |
| Retriever.FailureIsNotPermanent | api/service/llama_retriever.py:12-22 | after any history, earlier failures on the same directory included, a succeeding construction installs its own index |
| Retriever.RetryAfterIndexBuilt | api/service/llama_retriever.py:17-22 | a construction before the directory exists raises `FileNotFoundError` and keeps the index; one on the same path after the index is persisted installs it |
| Retriever.ReconstructIdempotent | api/service/llama_retriever.py:17-22 | constructing twice in a row with the same path and an unchanged disk equals constructing once |
| Retriever.LlamaRetriever.constructor | api/service/llama_retriever.py:14 | a fresh instance has no index |
| Retriever.LlamaRetriever.Init | api/service/llama_retriever.py:17-22 | `__init__` changes the instance exactly as the initialisation outcome says |
| Retriever.LlamaRetriever.Query | api/service/llama_retriever.py:24-26 | the answer is the engine's over the loaded index; without an index it raises |
| Retriever.LlamaRetrieverClass.constructor | api/service/llama_retriever.py:10 | `_instance` starts unset |
| Retriever.LlamaRetrieverClass.New | api/service/llama_retriever.py:12-15 | `__new__` creates the instance only when unset and otherwise returns the same one |
| Retriever.LlamaRetrieverClass.Construct | api/service/llama_retriever.py:12-22 | a construction keeps the shared instance, applies `__init__` to it, and returns it unless `__init__` raised |
| Retriever.LlamaRetrieverClass.ConstructTwice | api/service/llama_retriever.py:12-22 | two constructions, each seeing the disk as it is then, return the same object, which holds the index from replaying both; the second returns iff it completes |

## Left out

- HTTP transport is not modelled. This covers `requests.post` and the splitting of the body by `iter_lines`, including `\r` handling. The replies are oracle parameters.
- Both `post` oracles are functions, so the same request always gets the same reply.
- Embedding vectors and numbers are opaque JSON values. Floats are represented as reals, and NaN is not represented.
- `resp.json()` is not modelled. A reply carries its decoded body, or `None` when decoding raises.
- `json.dumps({"error": text}).encode()` is not modelled. It is the parameter `errorPayload`.
- The `except` branch around `yield chunk + b"\n"` is not modelled. In the model, framing a line cannot raise, so that branch never runs.
- Logging is not modelled: `shell` messages and `print`.
- `WIKI_DIR.mkdir` and `INDEX_DIR.mkdir` are not modelled. Why a write fails (a sub-directory that a title containing '/' names, an encoding error, a full disk) is left to the oracle `write`; a failed write leaves a prefix of the page, possibly empty, or no file.
- IndexUpdater.Sync: `pathlib` normalisation is not modelled. Paths are compared as strings, so "A//B" and "A/B" are two files in the model but one on disk, and a title starting with '/' is not shown to leave `WIKI_DIR`.
- IndexUpdater.MissingWasAttempted: `download` is a fixed function of the title. A title listed twice whose first download failed fails again in the model, while a transient failure of `wikipedia.page` could succeed the second time.
- The llama_index internals are not modelled: `SimpleDirectoryReader`, `TokenTextSplitter`, `GPTVectorStoreIndex`, `ServiceContext`, persistence, `StorageContext` and the query engine. They appear only as the oracles `readDir`, `split`, `load` and `engine`. The index built from the chunks is not represented.
- Generation.OllamaGenerator.StreamResponse: connection errors are not represented. An exception from `requests.post` or from `iter_lines` has no counterpart in the reply, so the model has no failing or truncated stream.
- `wikipedia.page` is not modelled. It is the oracle `download`, with `None` for any exception.
- IndexUpdater.LoadTitles: reading the file is not modelled. Its lines are the input, and the trailing newline Python keeps on each line is assumed already removed by the line split (`strip` would remove it anyway).
- IndexUpdater.IndexDir reads `INDEX_PATH` from an environment map, as `api/service/config.py` does. The rest of that configuration module is not part of this model.
- Retriever.LlamaRetriever.Query: the default `top_k = 5` is not modelled. Callers pass `topK` explicitly.
- Routes, the UI, context assembly in the chat route and the scripts are not part of this model.
- Concurrency is not modelled: concurrent first constructions of the retriever and concurrent requests. Each method runs alone.
