# Student portfolio application: store, upload action, listing and form

This project models the working core of a small Next.js portfolio application. Applicants
fill in a form with ten text inputs and four file inputs. The form validates four of the
inputs. When it submits, it uploads the chosen files through a server action that writes
them to disk under generated names. It then appends one record to an in-memory store that
lives as long as the process. A listing reads the store once and shows the records sorted
by GPA or by name.

The model has one Dafny module per concern:

- `Wrappers`: `Option` and `Result`.
- `JsStrings`: the string built-ins the code relies on, `trim` and `split` with `pop`.
- `Store`: `src/app/lib/store.ts`. The JavaScript array is a `StudentList` object, so that
  code holding a reference to it sees later pushes. The module-level binding is a
  `StudentStore`.
- `Oracles`: the foreign calls, `uuidv4`, `mkdir` and `writeFile`. They are classes driven
  by tapes fixed up front, so each run is deterministic once its tapes are given.
- `Actions`: the server action `uploadFiles` in `src/app/actions.ts`, with its loop as a
  `for` loop.
- `Sorting`: `Array.prototype.sort` with a comparator.
- `Table`: the `StudentTable` component.
- `Form`: the `PortfolioForm` component. Its state is a class whose fields the handlers
  update, and its submit handler is a method over the store, the filesystem and the id
  generator.

A filesystem call fails when its entry on the tape says so. A write also fails when its
directory was never made. A failed call ends the upload with its error, because the action
catches nothing. The submit handler then reports the failure and leaves the store, the
inputs and the chosen files as they were.

Each sort button negates `sortAsc` whichever key was current
(`src/app/components/StudentTable.tsx:37` and `:46`), so switching keys flips the direction
too (`Table.SwitchingKeyFlipsDirection`).

## Model

| member | source | states |
|---|---|---|
| `JsStrings.Trim` | src/app/components/PortfolioForm.tsx:48 | `String.prototype.trim`: the whitespace and line terminators of ECMAScript are dropped from both ends. Its properties are the two lemmas below and `TrimEmptyIffAllWhitespace`. |
| `JsStrings.TrimStartDropsLeadingWhitespace` | src/app/components/PortfolioForm.tsx:48 | Trimming the start removes exactly the leading run of whitespace. What is kept ends the string and does not start with whitespace. |
| `JsStrings.TrimEndDropsTrailingWhitespace` | src/app/components/PortfolioForm.tsx:48 | Trimming the end removes exactly the trailing run of whitespace. What is kept starts the string and does not end with whitespace. |
| `JsStrings.TrimEmptyIffAllWhitespace` | src/app/components/PortfolioForm.tsx:48-50 | `s.trim()` is empty, so the `!` test is true, exactly when every character of `s` is whitespace. |
| `JsStrings.Split` | src/app/actions.ts:17 | `split` always yields at least one piece, so `pop` always has a value. |
| `JsStrings.JoinSplit` | src/app/actions.ts:17 | Splitting loses nothing: joining the pieces with the separator gives the string back. |
| `JsStrings.SplitPiecesLackSeparator` | src/app/actions.ts:17 | No piece holds the separator. With `JoinSplit`, the pieces are exactly the runs between separators. |
| `JsStrings.LastPiece` | src/app/actions.ts:17 | The popped piece holds no separator and ends the string. A separator stands right before it when the string has one. It is the whole string when there is none, and only then is there a single piece. |
| `JsStrings.Pop` | src/app/actions.ts:17 | `pop` on the pieces of a `split`: the last piece. `JsStrings.LastPiece` states what that piece is. |
| `Store.Student` | src/app/lib/store.ts:2-18 | One portfolio record: ten text fields, a numeric GPA, and an optional image path and three optional lists of paths. |
| `Store.FirstIndex` | src/app/lib/store.ts:31-33 | The position of the first record with the id, or the length when there is none. No earlier record carries that id. |
| `Store.Find` | src/app/lib/store.ts:32 | `find` is undefined exactly when no record has the id. Otherwise it returns a record with that id that stands in the list, with no earlier record carrying the id. |
| `Store.FindAfterAppend` | src/app/lib/store.ts:27-33 | After a push, an id that was found still resolves to the same record. An id not found before resolves to the new record exactly when that record carries it. |
| `Store.FirstIndexAfterAppend` | src/app/lib/store.ts:27-33 | A push leaves the first position of an id present before unchanged. Otherwise that position moves past the new record, unless the new record carries the id. |
| `Store.DuplicateIdResolvesToEarliest` | src/app/lib/store.ts:27-33 | Ids are not checked for uniqueness, and a lookup of a shared id returns the earliest record carrying it. |
| `Store.StudentList.constructor` | src/app/lib/store.ts:21 | A new array is empty. |
| `Store.StudentList.Push` | src/app/lib/store.ts:28 | `push` appends the record at the end of the same array. |
| `Store.StudentStore.constructor` | src/app/lib/store.ts:21 | At module load the store is bound to a fresh empty array. |
| `Store.StudentStore.GetStudents` | src/app/lib/store.ts:23-25 | Returns the live array itself, not a copy. |
| `Store.StudentStore.AddStudent` | src/app/lib/store.ts:27-29 | Appends one record to the live array. The binding stays the same, the length grows by one, the record is last, and every earlier record is unchanged. |
| `Store.StudentStore.GetStudentById` | src/app/lib/store.ts:31-33 | Undefined exactly when no stored record has the id. Otherwise it is the first record with that id. |
| `Store.StudentStore.ClearStudents` | src/app/lib/store.ts:35-37 | Rebinds the store to a fresh empty array. The old array is not emptied. |
| `Store.AddShowsThroughEarlierReference` | src/app/lib/store.ts:23-29 | An array obtained from `getStudents` before an `addStudent` shows the new record. |
| `Store.ClearKeepsEarlierReference` | src/app/lib/store.ts:35-37 | An array obtained before `clearStudents` keeps its records. The store then reads as empty, and every lookup finds nothing. |
| `Sorting.Insert` | src/app/components/StudentTable.tsx:17 | Inserting into a sorted list adds exactly that element and keeps the list sorted. |
| `Sorting.Sort` | src/app/components/StudentTable.tsx:17 | The sorted copy is a permutation of its input, in which every element may come before every later one. |
| `Sorting.InsertKeepsTies` | src/app/components/StudentTable.tsx:17 | Insertion puts the new element before every element that ranks equally with it, and keeps the order among those. |
| `Sorting.SortKeepsTies` | src/app/components/StudentTable.tsx:17 | The sort is stable: elements that rank equally come in the same order in the copy as in the input. |
| `Table.NameKey` | src/app/components/StudentTable.tsx:21-22 | The name key is the lower-cased "first last" string. `Table.StudentTable.SortedStudents` states the order on it. |
| `Table.Precedes` | src/app/components/StudentTable.tsx:17-25 | The four comparators, one per key and direction, read as "may come first". `Table.PrecedesIsTotalPreorder` states what makes them sort. |
| `Table.PrecedesIsTotalPreorder` | src/app/components/StudentTable.tsx:17-25 | When `localeCompare` orders every pair and is transitive on `<= 0`, each of the four comparators orders every pair and is transitive, so sorting by it is well defined. |
| `Table.InitialSort` | src/app/components/StudentTable.tsx:8-9 | The sort state before any click: by GPA, ascending. `Table.SwitchingKeyFlipsDirection` starts from it. |
| `Table.Clicked` | src/app/components/StudentTable.tsx:34-47 | A click sets the key to the button's and negates the direction. Its properties are the two lemmas below. |
| `Table.ClickTwiceRestoresDirection` | src/app/components/StudentTable.tsx:35-38 | Clicking the same button twice restores the direction it started with. |
| `Table.SwitchingKeyFlipsDirection` | src/app/components/StudentTable.tsx:44-47 | Switching the key also flips the direction. The first click on "name" after the initial state sorts names descending, and the first click on "GPA" sorts GPA descending. |
| `Table.Indicator` | src/app/components/StudentTable.tsx:41 | A button shows no arrow exactly when its key is not the current one. Otherwise it shows an up arrow exactly when ascending and a down arrow exactly when descending. |
| `Table.StudentTable.constructor` | src/app/components/StudentTable.tsx:8-10 | The first render sorts by GPA, ascending, over an empty array. |
| `Table.StudentTable.Mount` | src/app/components/StudentTable.tsx:13-15 | The mount effect makes the component hold the store's live array and leaves the sort state alone. |
| `Table.StudentTable.Click` | src/app/components/StudentTable.tsx:34-47 | A click sets the key to the button's and negates the direction. The records held are unchanged. |
| `Table.StudentTable.SortedStudents` | src/app/components/StudentTable.tsx:17-25 | The shown list has the same records as the array held. By GPA it is non-decreasing when ascending and non-increasing when descending. By name, the lower-cased "first last" keys come in `localeCompare` order, or in reverse order. Records that rank equally keep their order in the array, as the stable `Array.prototype.sort` of ECMAScript 2019 keeps them. |
| `Oracles.IdGenerator.constructor` | src/app/actions.ts:18 | The generator starts at the beginning of its tape. |
| `Oracles.IdGenerator.Next` | src/app/actions.ts:18 | Each `uuidv4()` call returns the next entry of the tape and advances by one. |
| `Oracles.Run` | src/app/actions.ts:14-22 | The number of successes before the first failure is at most the number of operations. |
| `Oracles.RunIsLongestPrefix` | src/app/actions.ts:14-22 | Every operation in the run succeeds, and when the run ends early the next operation fails. |
| `Oracles.RunStops` | src/app/actions.ts:14-22 | When the first `i` operations succeed and the next one fails, the run is `i` long. |
| `Oracles.RunIsAll` | src/app/actions.ts:14-22 | The run covers all operations exactly when they all succeed. |
| `Oracles.AllSucceedConcat` | src/app/components/PortfolioForm.tsx:75-105 | A sequence of operations all succeeds exactly when its first part and then its second part do. |
| `Oracles.PathJoin` | src/app/actions.ts:8 | `join` of a directory without a trailing separator and a name: the two joined by `/`. `Actions.StoredPathInjective` relies on it. |
| `Oracles.FileSystem.constructor` | src/app/actions.ts:9 | The filesystem starts with no calls made, over the given directories and files. |
| `Oracles.FileSystem.Mkdir` | src/app/actions.ts:9 | `mkdir` with `recursive: true` succeeds as the tape says and then adds the directory, even one that already exists. Files are unchanged. |
| `Oracles.FileSystem.WriteFile` | src/app/actions.ts:20 | `writeFile` succeeds exactly when the tape says so and the directory exists. It then creates or overwrites the file at the joined path with the data; otherwise nothing changes. |
| `Actions.UploadsDir` | src/app/actions.ts:8 | The uploads directory, `public/uploads` under the working directory. `Actions.UploadFiles` creates it and writes into it. |
| `Actions.ScanBackStart` | src/app/actions.ts:17 | The backward scan starts right after a `.`, or at the start of the name, and meets no `.` on the way. |
| `Actions.Extension` | src/app/actions.ts:17 | `file.name.split(".").pop()`, computed by a scan back from the end. `Actions.ExtensionAfterLastDot` and `Actions.ExtensionIsPopOfSplit` state what it is. |
| `Actions.ExtensionAfterLastDot` | src/app/actions.ts:17 | The kept extension is the text after the name's last `.`, or the whole name when it has none. It holds no `.` and ends the name. |
| `Actions.ExtensionIsPopOfSplit` | src/app/actions.ts:17 | The extension is exactly `name.split(".").pop()`. |
| `Actions.ExtensionOfDoubleExtension` | src/app/actions.ts:17 | "a.tar.gz" keeps only "gz". |
| `Actions.ExtensionWithoutOrAfterFinalDot` | src/app/actions.ts:17 | A name without a dot is kept whole as its "extension", so "README" is stored as `<id>.README`. A trailing dot keeps the empty extension. |
| `Actions.FileName` | src/app/actions.ts:18 | The stored name `<id>.<extension>`. `Actions.FileNameRoundTrip` and `Actions.FileNameInjective` state what it keeps. |
| `Actions.PublicPath` | src/app/actions.ts:21 | The public path `/uploads/<stored name>`. `Actions.PublicPathInjective` states that ids keep paths apart. |
| `Actions.FileNameRoundTrip` | src/app/actions.ts:18 | A stored name `<id>.<ext>` can be taken apart again. Its extension is the original file's, and its stem is the id, whatever dots the id holds. |
| `Actions.FileNameInjective` | src/app/actions.ts:18 | Distinct ids give distinct stored names, whatever the original names are. |
| `Actions.PublicPathInjective` | src/app/actions.ts:21 | Distinct ids give distinct public paths. |
| `Actions.StoredPathInjective` | src/app/actions.ts:19 | Distinct ids give distinct files within the uploads directory. |
| `Actions.UploadPaths` | src/app/actions.ts:14-24 | The returned list has one path per submitted file. |
| `Actions.UploadPathsDistinct` | src/app/actions.ts:18-21 | When the ids drawn do not repeat, the paths of one upload are pairwise distinct. |
| `Actions.WrittenKeepsDisk` | src/app/actions.ts:20 | Writing never removes a file that was already on disk. |
| `Actions.WrittenStoresEach` | src/app/actions.ts:19-20 | When the ids drawn do not repeat, each written file sits under its stored name with its own content. |
| `Actions.WriteOne` | src/app/actions.ts:17-20 | One pass of the loop draws one id and names the file `<id>.<extension>`. It makes one filesystem call, which stores the content at the joined path exactly when it succeeds. |
| `Actions.WriteEach` | src/app/actions.ts:14-22 | The loop succeeds exactly when every write does, and then returns the public paths in submission order. On failure the first failing write ends it with that file's path as the error, having drawn one id per file tried. The disk holds exactly the writes before the failure. |
| `Actions.UploadFiles` | src/app/actions.ts:7-25 | `mkdir` comes first, even for no files. If it fails, nothing is written and no id is drawn. Otherwise the outcome is `WriteEach`'s in the uploads directory: it succeeds exactly when every call does, returns the paths in order, and on failure leaves the earlier writes on disk. |
| `Form.FormValues.With` | src/app/components/PortfolioForm.tsx:32 | `{ ...form, [name]: value }` sets the named input and changes no other. |
| `Form.EmptyForm` | src/app/components/PortfolioForm.tsx:11-22 | All ten inputs empty: the initial form, and the form after a reset (lines 110-121). `Form.PortfolioForm.constructor` and `Form.PortfolioForm.SubmitValid` use it. |
| `Form.IsBlank` | src/app/components/PortfolioForm.tsx:48-50 | `!x.trim()`: the trimmed input is empty. `JsStrings.TrimEmptyIffAllWhitespace` states when. |
| `Form.Below` | src/app/components/PortfolioForm.tsx:52 | `gpaNum < 0` on a JavaScript number: true for a finite value below the bound and for minus infinity, false for NaN. `Form.GpaRule` states its use. |
| `Form.Above` | src/app/components/PortfolioForm.tsx:52 | `gpaNum > 4.0` on a JavaScript number: true for a finite value above the bound and for plus infinity, false for NaN. `Form.GpaRule` states its use. |
| `Form.IsTenDigits` | src/app/components/PortfolioForm.tsx:50 | The pattern `^\d{10}$`: exactly ten ASCII digits. `Form.PhoneRule` states its use. |
| `Form.Rejected` | src/app/components/PortfolioForm.tsx:48-52 | Which inputs the four checks reject. `Form.NameRule`, `Form.PhoneRule` and `Form.GpaRule` state each rule. |
| `Form.Message` | src/app/components/PortfolioForm.tsx:48-52 | The message each of the four checks records. `Form.ErrorsComplete` states that a rejected input gets exactly its message. |
| `Form.NameRule` | src/app/components/PortfolioForm.tsx:48-49 | A first or last name is rejected exactly when it is empty or all whitespace. |
| `Form.PhoneRule` | src/app/components/PortfolioForm.tsx:50 | The phone is rejected exactly when it is not ten ASCII digits. Leading or trailing whitespace makes it fail, because the pattern is tested on the untrimmed value. |
| `Form.GpaRule` | src/app/components/PortfolioForm.tsx:51-52 | The GPA is accepted exactly when the input is non-empty and parses to a finite number from 0 to 4.0, both bounds included. |
| `Form.ErrorsStep` | src/app/components/PortfolioForm.tsx:47-52 | Each check adds its input's message exactly when that input is rejected. |
| `Form.ErrorsComplete` | src/app/components/PortfolioForm.tsx:53-57 | After the four checks the errors name exactly the rejected inputs, each with its message. They are empty exactly when nothing is rejected. |
| `Form.ImagePath` | src/app/components/PortfolioForm.tsx:75-81 | The image block's path: none when no image was chosen, otherwise the first path of its one-file upload. `Form.ImagePathNamesImage` states its shape. |
| `Form.ImagePathNamesImage` | src/app/components/PortfolioForm.tsx:75-81 | The stored image path is `/uploads/<id>.<extension of the image>`, under the id drawn for the image. |
| `Form.SetGroup` | src/app/components/PortfolioForm.tsx:88 | `studentData.<group> = paths` for activities, awards or works (also lines 96 and 104); no other field changes. `Form.AttachedFields` states its use. |
| `Form.AttachedFields` | src/app/components/PortfolioForm.tsx:65-105 | The upload blocks leave every other field of the record alone. They set the image exactly when one was chosen, and give each list its group's paths, or `[]` for an empty group. Ids are drawn in the order image, activities, awards, works. |
| `Form.FormGroupsTotals` | src/app/components/PortfolioForm.tsx:83-105 | The three group blocks make the sum of their filesystem calls and draw one id per file. |
| `Form.PortfolioForm.constructor` | src/app/components/PortfolioForm.tsx:11-27 | The first render has empty inputs, no files and no errors. |
| `Form.PortfolioForm.HandleChange` | src/app/components/PortfolioForm.tsx:30-36 | The named input takes the value. Its error is blanked only when it held a non-empty message, and nothing else changes. |
| `Form.PortfolioForm.HandleImageChange` | src/app/components/PortfolioForm.tsx:338 | The image becomes the first chosen file, or none. |
| `Form.PortfolioForm.HandleFileChange` | src/app/components/PortfolioForm.tsx:38-44 | The group's list becomes the chosen files, and the other groups and the inputs are unchanged. |
| `Form.PortfolioForm.ValidateForm` | src/app/components/PortfolioForm.tsx:46-58 | Returns true exactly when no input is rejected. On false the errors are replaced by exactly the rejected inputs with their messages. On true they are left as they were. |
| `Form.PortfolioForm.UploadGroup` | src/app/components/PortfolioForm.tsx:85-87 | One `uploadFiles` call succeeds exactly when its `mkdir` and every write do. It then yields the group's paths, with one id drawn per file, and the disk is `Actions.Written` over the group's files, in order. When the ids drawn do not repeat, each file then sits under its own stored name (`Actions.WrittenStoresEach`). |
| `Form.PortfolioForm.AttachGroups` | src/app/components/PortfolioForm.tsx:83-105 | The group blocks skip empty groups and upload the others in order. They go through exactly when every call does, and then the record carries each group's paths. |
| `Form.PortfolioForm.AttachUploads` | src/app/components/PortfolioForm.tsx:75-105 | The four upload blocks go through exactly when every filesystem call does. The record then carries the image path and the three lists of paths, with ids drawn in order. |
| `Form.PortfolioForm.BuildRecord` | src/app/components/PortfolioForm.tsx:65-105 | The record built for a valid form succeeds exactly when every call does. It is then the one `SavedRecord` describes: first id drawn, inputs copied, GPA parsed within 0 to 4, and upload paths. |
| `Form.PortfolioForm.SubmitValid` | src/app/components/PortfolioForm.tsx:64-130 | A valid submission appends the record and resets the form exactly when every upload call succeeds. Otherwise the store, inputs, files and errors are unchanged. |
| `Form.PortfolioForm.HandleSubmit` | src/app/components/PortfolioForm.tsx:60-134 | An invalid form uploads nothing, leaves the disk as it was, stores nothing and sets the errors to exactly the rejected inputs. A valid one is saved exactly when every filesystem call succeeds; the record described by `SavedRecord` is then appended and the form reset. |

## Left out

- Rendering, styling, links and the pages under `src/app/students/` are not part of this model. `StudentDetail.tsx`, `FirebasePortfolio.tsx` and `firebase.ts` are not part of this model either.
- The `loading` flag, `alert`, `router.push`, `e.preventDefault()` and the `finally` block have no effect on the state modelled, so they are left out.
- `async`/`await` is modelled as sequential execution. Two submissions interleaving their awaits are not modelled.
- `parseFloat` is a parameter of type `string -> JsNumber`, with NaN and the two infinities as values of their own. `toLowerCase` and `localeCompare` are parameters too. `localeCompare` is assumed to order every pair one way or the other and to be transitive on `<= 0` (`Table.IsComparator`); nothing else of ECMAScript's consistent comparator is assumed.
- `uuidv4` is an arbitrary tape of strings. In the program the browser and the server action each call their own `uuidv4`; the model draws both from one tape, so it fixes the order in which ids are drawn, not which instance draws them.
- The outcomes of `mkdir` and `writeFile` are a tape of booleans indexed by call count. A write into a directory never made fails. Permissions, disk space and other causes all count as the tape saying "fail".
- `path.join` is modelled as concatenation with `/`, for a base directory without a trailing separator. Its normalisation of `.` and `..` segments is not modelled.
- `FormData`, `arrayBuffer` and `Buffer.from` are modelled by passing each file's name and bytes directly.
- `Store.Student.gpa` is a real number. A NaN GPA can only come from records not made by the form, which the model does not produce.
- `Form.PortfolioForm.HandleSubmit`: on a failed upload it does not state how many ids were drawn or which files were written before the failing call. `Actions.UploadFiles` states both for each call.
- `Form.PortfolioForm.HandleSubmit`: on a saved or failed submission it does not state the files and directories on disk. The form layer leaves them to `Actions.UploadFiles`, and `Form.PortfolioForm.UploadGroup` states them for one successful call.
- `Form.PortfolioForm.SubmitValid`: does not state the files and directories on disk, for the same reason.
- `Form.PortfolioForm.BuildRecord`: does not state the files and directories on disk, for the same reason.
- `Form.PortfolioForm.AttachUploads`: does not state the files and directories on disk, for the same reason.
- `Form.PortfolioForm.AttachGroups`: does not state the files and directories on disk, for the same reason.
- `Form.PortfolioForm.UploadGroup`: on a failed call it does not state the files and directories on disk. `Actions.UploadFiles` states them.
- `Form.PortfolioForm.HandleChange` takes the input's name as a `Field`. An event from an element whose `name` is not one of the ten inputs is not modelled.
- `Form.PortfolioForm.HandleImageChange` and `Form.PortfolioForm.HandleFileChange` take the chosen files as a sequence. A null `FileList` is the empty sequence.
