# Exact-line string search server — Dafny model

The system is a TCP server that answers one question per connection:
"is this query one complete line of the configured corpus file?". A
client sends the query's UTF-8 bytes followed by a line feed. The server
strips trailing NUL, CR and LF bytes, decodes the rest (dropping invalid
bytes) and replies `STRING EXISTS\n` or `STRING NOT FOUND\n`. It then
closes the connection, with a TLS `unwrap` first on a TLS socket.

The answer comes from one of several interchangeable search strategies:
- a set of lines loaded once;
- a line-by-line scan;
- an anchored-regex scan;
- a memory-mapped substring probe;
- a `linecache` reader.

Configuration picks the mode. In re-read mode the server uses `linecache`
on every query. In static mode it uses a set of lines. `main` preloads such
a set but does not pass it to `handle_client` (src/server.py:168-171 and
194). The running server therefore loads the lines again for each request.
A preloaded set reaches the handler only when the handler is called
directly, as the unit tests do. Errors are reported
through a small exception hierarchy.

This project models:
- the search strategies (`search.dfy`), with what they rely on:
  - file text and Python's line iteration (`files.dfy`);
  - the part of `re` that an escaped, anchored pattern uses (`regex.dfy`);
  - `rstrip`, truthiness, `str()` and ASCII `lower` (`builtins.dfy`);
  - UTF-8 (`utf8.dfy`);
- the connection handler and the startup configuration check
  (`server.dfy`);
- the exception classes (`exceptions.dfy`).

Each strategy is proved against the set lookup, except the mmap probe,
which is proved only to be implied by it. The handler is an imperative
method on a `Connection` object and a `Logger` object. It is proved to
perform exactly the calls that the function `Server.Expected` describes.
The protocol's promises are lemmas about that function.

The file system is a snapshot `map<string, Entry>` taken for one call:
- an entry is missing, a directory, a regular file that `open` refuses
  (no read permission), or a readable regular file;
- a readable regular file carries its text and whether its bytes were
  valid UTF-8.

## Model

| member | source | states |
|---|---|---|
| Builtins.RStrip | src/search/search_algorithms.py:44 | `rstrip(chars)` returns a prefix of its input whose last element, if any, is not in `chars`, and every element it removed is in `chars` |
| Builtins.RStripUnique | src/search/search_algorithms.py:44 | those three properties determine the result of `rstrip` completely |
| Builtins.RStripAppend | src/server.py:58 | appending only characters from the strip set does not change what `rstrip` keeps |
| Builtins.Lower | src/server.py:83 | the result has the input's length and each character lowered on its own (ASCII letters only, see Left out) |
| Builtins.Truthy | src/exceptions.py:14-17 | definition without a contract: `None`, `False`, `0` and `""` are false, every other value is true |
| Builtins.NatToString | src/exceptions.py:40 | `str(n)` of a natural number is a numeral (digits only, no leading zero unless it is `0`) that denotes `n` |
| Builtins.NatToStringInverse | src/exceptions.py:40 | every numeral is `str` of the number it denotes, so reading a numeral and rendering it are inverse |
| Builtins.Format | src/exceptions.py:16 | `str()` of a string is the string itself; of an int, the numeral of the number, after a minus sign when it is negative; of a bool, `True` or `False`; of `None`, `None` |
| Utf8.Decode | src/server.py:58 | `decode("utf-8", errors="ignore")` never produces more characters than there are bytes |
| Utf8.EncodeChar | client.py:55 | a character encodes to 1 to 4 bytes; it encodes to a single byte exactly when it is ASCII, and that byte is its code point |
| Utf8.DecodeStepEncodeChar | src/server.py:58 | decoding the encoding of one character yields that character and consumes exactly its bytes, whatever follows |
| Utf8.Encode | client.py:55 | `str.encode('utf-8')` gives at least one byte per character; `DecodeEncode`, `EncodeAppend` and `EncodeAscii` state what the bytes are |
| Utf8.DecodeEncode | src/server.py:58 | decoding the UTF-8 encoding of any string gives back the string |
| Utf8.EncodeAppend | client.py:55 | encoding is a homomorphism: the encoding of a concatenation is the concatenation of the encodings |
| Utf8.EncodeLast | client.py:55 | the last byte of an encoded string is the last byte of its last character's encoding |
| Utf8.EncodeAscii | client.py:55 | ASCII text encodes byte for byte to its code points |
| Utf8.AsciiRoundTrip | src/server.py:104-106 | a byte string whose bytes are the code points of an ASCII text is that text's encoding and decodes back to it |
| Files.RawLines | src/search/search_algorithms.py:42 | text-mode iteration yields non-empty lines, each with a line feed only as its last character and every line but the last terminated; it yields no lines exactly when the file is empty |
| Files.Lines | src/search/search_algorithms.py:19-20 | one stripped line per iterated line; `LinesAt` gives each of them |
| Files.StripNLRawLine | src/search/search_algorithms.py:44 | `line.rstrip('\n')` on an iterated line removes exactly its terminator and leaves no line feed |
| Files.LinesAt | src/search/search_algorithms.py:42-44 | the i-th stripped line is the i-th iterated line with its terminator removed |
| Files.LinesOfJoin | src/search/search_algorithms.py:19-20 | a file written as lines each followed by a line feed reads back as exactly those lines, with no extra empty line |
| Files.LinesOfUnterminated | src/search/search_algorithms.py:19-20 | the same holds when the last line has no terminator |
| Files.RawLineOccurs | src/search/search_algorithms.py:42 | every iterated line is a contiguous piece of the file |
| Files.LineOccurs | src/search/search_algorithms.py:19-20 | every stripped line is a contiguous piece of the file |
| Regex.Escape | src/search/search_algorithms.py:66 | definition without a contract: `re.escape` puts a backslash before each character of its special set; `TokenizeEscape` states what the result means |
| Regex.Tokenize | src/search/search_algorithms.py:66 | definition without a contract: `re.compile` of the escaped, anchored pattern, or nothing for a pattern outside that part of `re`; `TokenizeEscape` and `TokenizeAnchored` state what it gives |
| Regex.MatchAt | src/search/search_algorithms.py:75 | definition without a contract: `pattern.match(s)` from a position; `MatchAnchored` states when the anchored pattern matches |
| Regex.TokenizeEscape | src/search/search_algorithms.py:66 | `re.escape(q)` parses back as exactly the literal characters of `q` |
| Regex.TokenizeAnchored | src/search/search_algorithms.py:66 | `'^' + re.escape(q) + '$'` compiles to a start anchor, the literal characters of `q` and an end anchor |
| Regex.MatchAnchored | src/search/search_algorithms.py:75 | that pattern matches a string exactly when the string is `q`, or `q` followed by one final line feed |
| Search.LoadLines | src/search/search_algorithms.py:10-20 | `load_lines` succeeds exactly on a regular file that `open` can read; a path that is not a regular file raises `FileNotFoundError("Search file not found: <path>")`, and a regular file that `open` refuses raises `PermissionError` |
| Search.SearchCached | src/search/search_algorithms.py:23-29 | definition without a contract: membership of the query in the set; `LoadLinesMember` states what it means for a loaded file |
| Search.LoadLinesOfWrittenFile | src/search/search_algorithms.py:19-20 | the loaded set is exactly the set of lines written; it contains `""` only if an empty line was written |
| Search.LoadLinesMember | src/search/search_algorithms.py:19-29 | on a readable regular file, `search_cached(load_lines(path), q)` holds exactly when `q` is one of the file's stripped lines |
| Search.SearchDynamic | src/search/search_algorithms.py:32-46 | `search_dynamic` raises exactly when `load_lines` does, with the same error; otherwise it answers exactly `search_cached(load_lines(path), query)` |
| Search.ScanLines | src/search/search_algorithms.py:41-46 | the early-exit loop over the iterated lines returns true exactly when the query is one of the stripped lines |
| Search.SearchRegex | src/search/search_algorithms.py:49-82 | a missing file gives `ValueError("Search file not found at <path>")`; a directory gives `IsADirectoryError` and a file `open` refuses gives `PermissionError`, neither caught; undecodable content gives `ValueError("File contains invalid UTF-8 characters")`; otherwise the answer equals the set lookup |
| Search.MatchLines | src/search/search_algorithms.py:70-77 | the scan over the lines returns true exactly when the query is one of the stripped lines |
| Search.RegexMatchesLine | src/search/search_algorithms.py:72-75 | the compiled pattern matches a stripped line exactly when that line equals the query |
| Search.Find | src/search/search_algorithms.py:106 | `find` returns the first position at or after the start where the needle occurs, or -1 when there is none |
| Search.SearchMmap | src/search/search_algorithms.py:85-114 | a missing file gives `ValueError`; a directory, a file `open` refuses and an empty file give `RuntimeError`; otherwise the answer is true exactly when the query occurs anywhere in the file |
| Search.MmapFindsLinePrefix | src/search/search_algorithms.py:106-108 | a query that is a prefix of some line of the file is an mmap hit |
| Search.MmapImpliedByExactLine | src/search/search_algorithms.py:100-109 | every exact-line hit of the set lookup is also an mmap hit |
| Search.MmapNotExactLine | src/search/search_algorithms.py:106-108 | the converse fails: in a file holding only `abc`, the query `ab` is not a line, yet mmap finds it |
| Search.ExactLineSemantics | src/search/search_algorithms.py:23-29 | with lines `ab` and `abc`, `ab` is found and `a` is not, although mmap finds `a` |
| Search.CachedLines | src/search/search_algorithms.py:179 | `linecache` holds one line per iterated line of the file decoded as `utf-8-sig`. Every line it holds is non-empty and ends in a line feed. An unreadable path gives no lines |
| Search.Terminated | src/search/search_algorithms.py:179 | `linecache` leaves every line but the last as it is, and adds a line feed to the last line when it has none |
| Search.DeclaredEncoding | src/search/search_algorithms.py:179 | definition without a contract: the PEP 263 declaration `tokenize.open` looks for, in the first line after the byte order mark or, when that line is blank or a comment, in the second |
| Search.CodingCookieNames | src/search/search_algorithms.py:179 | the PEP 263 matcher behind `tokenize.open` reads the name out of a comment line `#coding:<name>`, and a line that does not start with a comment declares nothing |
| Search.GetLine | src/search/search_algorithms.py:179 | definition without a contract: `getline` returns line `n`, counted from 1, or `""` when `n` is out of range |
| Search.Linecache | src/search/search_algorithms.py:151-192 | definition without a contract: the specification `SearchLinecache` is proved equal to. A missing path raises `ValueError`. Otherwise the answer is whether some line `linecache` holds for the path, stripped of CR/LF, equals the query stripped the same way |
| Search.ReservedName | src/search/search_algorithms.py:179 | definition without a contract: the names `linecache` never reads, the empty name and `<...>`; `LinecacheLines` and `LinecacheReservedName` state what follows |
| Search.LinecacheLines | src/search/search_algorithms.py:179 | `linecache` holds no lines for a reserved name and otherwise the lines read from the path's entry, each ending in a line feed |
| Search.LinecacheReservedName | src/search/search_algorithms.py:171-192 | an existing file named `<...>` passes the existence check yet `search_linecache` answers false for every query; a file `<c>` holding `abc` is a hit for `abc` through `load_lines` only |
| Search.SearchLinecache | src/search/search_algorithms.py:151-192 | the `while True` loop returns what the specification `Linecache` gives, after at most one `getline` call more than `linecache` holds lines for the path |
| Search.ScanCache | src/search/search_algorithms.py:174-192 | the `while True` loop over the cached lines answers whether some line, stripped of CR/LF, equals the stripped query, after at most one `getline` call more than there are lines |
| Search.CachedLineStripped | src/search/search_algorithms.py:179-181 | a cached line stripped of CR/LF is the corresponding line of `load_lines`, for a file with no carriage returns, no byte order mark and no coding declaration |
| Search.LinecacheAgreesWithCached | src/search/search_algorithms.py:151-192 | `search_linecache` equals the set lookup for a query not ending in CR or LF. This holds on a valid file with no carriage returns, no byte order mark and no coding declaration, whose name is not reserved by `linecache` |
| Search.LinecacheBomDiffers | src/search/search_algorithms.py:179 | on a file that starts with a byte order mark the two readers differ: `load_lines` keeps U+FEFF on the first line, `linecache` drops it, so a one-line file `BOM + l` at a path not reserved by `linecache` is a hit for `l` only through `linecache` |
| Search.LinecacheIgnoresQueryTerminators | src/search/search_algorithms.py:175 | trailing CR/LF on the query does not change the linecache answer |
| Search.LinecacheOnDirectory | src/search/search_algorithms.py:171-179 | a directory exists, so linecache answers false where `load_lines` raises |
| Search.UnreadableFile | src/search/search_algorithms.py:16-19 | a regular file that `open` refuses is a file and exists, yet `load_lines` raises `PermissionError`, `search_mmap` raises `RuntimeError` (lines 104 and 113-114) and `search_linecache` answers false |
| Search.StripCRLF | src/search/search_algorithms.py:181 | definition without a contract: `rstrip('\r\n')`, whose meaning is `Builtins.RStrip`'s contract with the set of CR and LF |
| Files.IsFile | src/search/search_algorithms.py:16 | definition without a contract: `Path.is_file()` holds for a readable or an unreadable regular file; `Search.LoadLines` and `Search.UnreadableFile` state what follows from it |
| Files.PathExists | src/search/search_algorithms.py:171 | definition without a contract: `os.path.exists` holds for every entry but a missing one; `Search.LinecacheOnDirectory` and `Search.UnreadableFile` state what follows from it |
| Exceptions.AppBaseException | src/exceptions.py:3-5 | the exception has the base class, stores the message and sets no other attribute |
| Exceptions.Hierarchy | src/exceptions.py:1-82 | every class is an `AppBaseException`; exactly the two client subclasses and `ClientError` itself are `ClientError`s; exactly `SSLError` and `SecurityError` are `SecurityError`s |
| Exceptions.ClassNames | src/exceptions.py:7-8 | no class name contains a colon, and no two classes share a name |
| Exceptions.StrOf | src/exceptions.py:7-8 | definition without a contract: the class name, `: ` and the message; `StrRoundTrip` states that it can be split back |
| Exceptions.StrRoundTrip | src/exceptions.py:7-8 | `str(e)` splits back, at its first colon, into the class name and the message |
| Exceptions.ConfigError | src/exceptions.py:11-21 | a `ConfigError` sets no attributes besides its message |
| Exceptions.ConfigErrorMessage | src/exceptions.py:13-21 | a truthy `message` is kept as it is. Otherwise a truthy section and key give `Invalid config value for [section]->key`, with ` = 'value'` after it exactly when `value` is truthy. Otherwise the message is `Configuration error` |
| Exceptions.ConfigErrorPositional | src/exceptions.py:13-20 | `ConfigError("text")` has the message `Configuration error`; the text is lost |
| Exceptions.ServerError | src/exceptions.py:24-33 | `operation`, `reason` and `details` are stored unchanged |
| Exceptions.ServerErrorMessage | src/exceptions.py:26-30 | the message begins `Server error during <operation>: <reason>`, and the details suffix follows exactly when `details` is truthy |
| Exceptions.ClientErrorOf | src/exceptions.py:38-44 | a client error of any subclass stores `ip`, `port` and `reason` |
| Exceptions.ClientError | src/exceptions.py:36-44 | the exception has class `ClientError` and stores the reason it was given |
| Exceptions.ClientErrorMessage | src/exceptions.py:38-44 | every client error reads `Client error (<ip>:<port>): ` followed by exactly the reason |
| Exceptions.ClientConfigReason | src/exceptions.py:50-52 | definition without a contract: the reason `ClientConfigError` builds; `ClientConfigReasonCases` states its three cases |
| Exceptions.ClientConfigError | src/exceptions.py:47-53 | the stored reason is the one `ClientConfigReason` builds from key and value |
| Exceptions.ClientConfigReasonCases | src/exceptions.py:49-53 | the reason is `Invalid config` with no key, then ` [key='value']` with a truthy key and value, and ` [key]` with a truthy key and a falsy value |
| Exceptions.ClientProtocolError | src/exceptions.py:56-60 | the stored reason is `Protocol violation: ` followed by the violation |
| Exceptions.SecurityError | src/exceptions.py:63-67 | a `SecurityError` sets no attributes besides its message |
| Exceptions.SSLError | src/exceptions.py:70-73 | the exception has class `SSLError` and sets no attribute besides its message |
| Exceptions.SSLErrorIsSecurityError | src/exceptions.py:70-73 | an `SSLError` has the message of a `SecurityError` for mechanism `SSL`, `SSL security failure: <op> failed - <r>`; it is a subclass, and only its `str` differs |
| Exceptions.FileSystemError | src/exceptions.py:76-82 | the exception has class `FileSystemError` and stores `path` and `operation`, not the reason |
| Exceptions.FileSystemErrorFields | src/exceptions.py:76-82 | the message is `File error during <op> '<path>': <reason>`; `path` and `operation` are stored, the reason is not |
| Server.StripPayload | src/server.py:58 | the result is a prefix of the payload that does not end in NUL, CR or LF, and every byte removed is one of those |
| Server.DecodeQuery | src/server.py:58 | the decoded query has no more characters than the stripped payload has bytes |
| Server.QueryIgnoresTerminators | src/server.py:58 | trailing NUL, CR and LF bytes, in any order and number, do not change the decoded query |
| Server.ClientFramingRoundTrip | src/server.py:58 | the query `q` the client frames as `q.encode('utf-8') + b'\n'` (client.py:55) decodes back to exactly `q`, if `q` does not end in NUL, CR or LF |
| Server.RereadFlag | src/server.py:80-83 | definition without a contract: the flag, read with `False` as the default, lowered and looked up among the true words when it is a string, otherwise taken by truthiness; the two lemmas below state its behaviour |
| Server.RereadFlagNormalised | src/server.py:80-83 | the flag is off when the key is absent; a string flag gives the same mode whatever its letter case |
| Server.RereadFlagExamples | src/server.py:80-83 | `"False"` (truthy as a string) selects static mode, `"ON"` selects re-read mode, `"0"` and the int 0 select static mode, the int 2 selects re-read mode |
| Server.Received | src/server.py:51 | `recv(n)` raises `OverflowError` when `n` does not fit a C `ssize_t`, and `ValueError` when it is negative; it succeeds exactly for `0 <= n <= 2**63 - 1` on a working socket; it returns a prefix of the waiting bytes of at most `n` bytes, empty exactly when `n` is 0 or nothing waits |
| Server.PayloadLimit | src/server.py:51 | `cfg["MAX_PAYLOAD_SIZE"]` raises `KeyError` when absent; an int is the size itself and a bool counts as 0 or 1; any other value makes `recv` raise `TypeError`, a call the trace does not record |
| Server.SearchPath | src/server.py:87 | `cfg["LINUXPATH"]` raises `KeyError` when absent; a string is the path; any other value is refused as a `TypeError` |
| Server.Connection.Recv | src/server.py:51 | records one `recv` call with the buffer size and returns what `Received` gives for the peer |
| Server.Connection.SendAll | src/server.py:109 | records one `sendall` of the data; it fails exactly when the peer makes sending fail |
| Server.Connection.Unwrap | src/server.py:127 | is called only on a TLS socket and records one `unwrap`; it fails exactly when the peer makes it fail |
| Server.Connection.Close | src/server.py:131 | records one `close`; it fails exactly when the peer makes it fail |
| Server.Dispatch | src/server.py:85-97 | only a lazy load logs: info on success, error on failure; every failure is a configuration or search failure |
| Server.DispatchErrors | src/server.py:90-96 | the lookup logs one error exactly when a lazy load in static mode fails, and none otherwise |
| Server.ReplyShape | src/server.py:59-114 | after decoding, the handler sends once exactly when the lookup answered, fails exactly when the lookup or `sendall` raises, and logs debug and info, the lookup's records, then debug on success; it logs no error itself |
| Server.Attempt | src/server.py:49-115 | definition without a contract: the specification of the `try` block; `AttemptCases` and `AttemptShape` state its properties |
| Server.AttemptShape | src/server.py:49-115 | the `try` block never unwraps or closes and makes at most two calls on the connection. It sends exactly when the request reaches the lookup and the lookup answers. It sends nothing when it fails before `sendall`. The only error it logs itself is that of a failed lazy load |
| Server.FindQuery | src/server.py:80-97 | the answer and the records logged are those of `Dispatch`: `search_linecache` in re-read mode, otherwise membership in the given set, or in a set loaded for this call |
| Server.Respond | src/server.py:59-114 | the calls on the connection, the records and the failure after decoding are those of the specification `Reply` of the lookup's answer |
| Server.SendReply | src/server.py:103-114 | the reply sent, the final debug record and the failure are those of the specification `Send`: nothing when the lookup raised, one `sendall` otherwise |
| Server.Serve | src/server.py:49-115 | the calls on the connection, the records logged and the failure are exactly those of the `try` block's specification `Attempt` |
| Server.Expected | src/server.py:49-133 | definition without a contract: the `try` block, an error record on failure, then the cleanup; `CloseExactlyOnceLast`, `ReplySentOnce` and `ErrorLoggedOnFailure` state its properties |
| Server.HandleClient | src/server.py:15-133 | the calls on the connection and the records logged are exactly those of `Expected`: the `try` block, one error record if it failed, a TLS `unwrap` (a debug record if it fails), then `close` |
| Server.Finish | src/server.py:117-133 | the trace gains an `unwrap` on TLS only and then one `close`, and the records gain one error record exactly on failure followed by one debug record exactly when a TLS `unwrap` raises |
| Server.CleanupLast | src/server.py:121-133 | after any run of the `try` block that neither unwraps nor closes, `close` is the last call and occurs once, and `unwrap` occurs once just before it on TLS and never otherwise |
| Server.CloseExactlyOnceLast | src/server.py:121-133 | `close` is called exactly once, as the last call, whatever happened; `unwrap` is called once, just before it, on TLS and never on a plain socket |
| Server.EmptyReceive | src/server.py:51-54 | an empty receive, from no data or a buffer size of 0, sends nothing, logs no error and closes |
| Server.ReplySentOnce | src/server.py:103-109 | on success `sendall` is called exactly once, with `STRING EXISTS\n` or `STRING NOT FOUND\n` according to the answer, and no error is logged |
| Server.ErrorLoggedOnFailure | src/server.py:88-119 | a failure before `sendall` sends nothing. A failure is logged at error level once, or twice when the lazy load failed, since that load logs before re-raising |
| Server.ModesAgree | src/server.py:85-97 | re-read mode and lazily loaded static mode both answer whether the query is one of the file's lines. This holds for a query not ending in CR or LF, on a valid file with no carriage returns, no byte order mark and no coding declaration, at a path not reserved by `linecache` |
| Server.StaticModeSources | src/server.py:88-97 | with a preloaded set the file is not consulted; without one, each request answers from the file as it is at that request |
| Server.FramedQueryScenario | tests/test_server.py:122-135 | the unit test's situation, with preloaded lines that `main` never passes, but with `MAX_PAYLOAD_SIZE` the int 1024 that `load_config` produces rather than the test's string `"1024"` (tests/test_server.py:95), which only the mocked `recv` accepts: a plain client framing `q` to a static-mode server with preloaded lines sees `recv`, one `sendall` of the right reply and `close`, with no error logged |
| Server.StaticPreloadedRequest | src/server.py:49-133 | in static mode with preloaded lines (which only a direct caller such as the unit tests supplies), a plain connection that receives a query and can send sees `recv`, one `sendall` of the reply for membership in those lines and `close`, with records debug, info, debug |
| Server.StaticWhenFalseString | src/server.py:80-83 | the string `"False"` selects static mode |
| Server.ResponseOf | src/server.py:103-106 | each reply is the UTF-8 encoding of its text and decodes back to it; the two replies differ, and both end in a line feed |
| Server.Absent | src/server.py:150 | a key is listed exactly when it is required and absent from the configuration |
| Server.MissingKeysEmpty | src/server.py:150-151 | no key is listed exactly when every required key is present |
| Server.JoinCommaContains | src/server.py:152 | every element of `', '.join(keys)` occurs in the joined text |
| Server.StartupCheckAsWritten | src/server.py:148-152 | as written, startup passes exactly when every one of the 13 required keys is present |
| Server.StartupCheckAsWrittenRaisesTypeError | src/server.py:152 | as written, a missing key makes the one-argument `ServerError(...)` call raise `TypeError`; no application exception is raised |
| Server.StartupCheck | src/server.py:148-152 | as intended, startup passes exactly when every required key is present |
| Server.StartupCheckNamesMissingKeys | src/server.py:148-152 | as intended, a missing key gives a `ServerError`, which is an `AppBaseException`, whose reason names that key |
| Server.MissingKeysMessageNames | src/server.py:150-152 | every required key absent from the configuration occurs in the message `Missing required config keys: ...` |

## Left out

- `search_grep`: it runs an external `grep` process. What it matches is defined by grep, not by this code.
- Text-mode newline translation: the file text is taken after decoding, with `\n` as the only line terminator.
- The bytes of the corpus file. A regular file holds its decoded text and a flag saying whether its bytes were valid UTF-8.
- Search.SearchMmap searches the decoded text, not the raw bytes. On a file with invalid UTF-8 it can therefore differ from the byte-level `find`.
- `os.linesep`, computed but unused in `search_mmap`.
- Search.SearchRegex: opening a file with invalid UTF-8 is modelled as raising at once. Python decodes in chunks, so a match found before the first undecodable chunk returns `True` first.
- Search.CachedLines: `linecache` reads through `tokenize.open`. A PEP 263 coding declaration in the first two lines makes it decode with the codec that declaration names. It reads no lines when that codec is unknown, or differs from UTF-8 after a byte order mark. The model decodes every file as UTF-8 and drops only a leading byte order mark; it does not model codecs. Search.CodingCookieNames pins down the declaration matcher.
- Search.CachedLineStripped: holds only for a file with no byte order mark and no coding declaration, and requires both. Linecache drops a leading U+FEFF that `load_lines` keeps (Search.LinecacheBomDiffers). A declared non-UTF-8 codec decodes differently. A declaration that names UTF-8 would agree, but is excluded as well.
- Search.LinecacheAgreesWithCached: requires the same two conditions, for the same reasons; on a file that breaks them the two strategies can answer differently. It also requires a path that `linecache` does not reserve: for a file named `<...>` it answers false whatever the file holds (Search.LinecacheReservedName).
- Server.ModesAgree: requires the same two conditions and a path that `linecache` does not reserve. On a file that breaks them, re-read mode and static mode can answer the same query differently. `main` makes the path absolute, so the running server never has a reserved path.
- Search.LinecacheBomDiffers: requires a path that `linecache` does not reserve; at a reserved path `linecache` reads nothing and both readers miss `l`.
- `linecache`'s process-wide cache. Each call reads a fresh snapshot of the file, as after `checkcache`.
- Non-string paths. A non-string `LINUXPATH` is modelled as a failure of the request. With an int, `os.path.exists` would instead test a file descriptor.
- Server.Received: a size that fits `ssize_t` but cannot be allocated makes `recv` raise `MemoryError` before reading. The model has no memory limit and returns the waiting bytes for any size up to `2**63 - 1`.
- Server.PayloadLimit: a `MAX_PAYLOAD_SIZE` that is not an int is refused by the `recv` call itself. The trace leaves that refused call out, so such a request shows no `recv`.
- `recv` returning fewer bytes than are waiting. The model always returns the first `min(n, available)` bytes.
- Time measurement (`perf_counter`, floating point), `print(response)`, and the text of log messages. Only the level of each log record is kept.
- The `addr` argument of `handle_client`: it only appears in log messages.
- Threads and the accept loop (`src/threads.py`), TLS context creation (`src/ssl_utils.py`) and configuration file parsing (`src/config_loader.py`).
- `main` beyond the required-keys check: argument parsing, path resolution, preloading, socket setup and TLS wrapping.
- `Builtins.Lower` folds ASCII letters only. `str.lower` also folds other letters, but no non-ASCII character lowers to one of the letters in `1`, `true`, `yes` or `on`, so the flag's value is the same.
- `search_mmap`'s docstring promises a complete-line match, but the code finds any substring. The model follows the code; Search.MmapNotExactLine shows the difference.

## Findings

| source | as written | input that shows it | evidently intended | confidence | as-written member | corrected member |
|---|---|---|---|---|---|---|
| src/server.py:152 | `ServerError(f"Missing required config keys: ...")` passes one argument. `ServerError.__init__` requires `operation` and `reason` (src/exceptions.py:26), so Python raises `TypeError` and the list of missing keys never reaches an application exception. The same one-argument call appears at lines 162, 175 and 188, outside this model. | a configuration without `LOG_FILE`, or the empty configuration. `main` takes its configuration from `load_config`, which always sets all 13 keys (src/config_loader.py:29-43). So the branch is latent in the shipped program and shows only when the check gets a configuration from elsewhere. The same one-argument call at line 162 is reachable: a configured search file that does not exist raises `TypeError` there | a `ServerError` whose reason names the missing keys | high; not executed | Server.StartupCheckAsWrittenRaisesTypeError | Server.StartupCheckNamesMissingKeys |
