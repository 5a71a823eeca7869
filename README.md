# JavaScript practice repository, modelled in Dafny

This project models the parts of a JavaScript learning repository that carry
logic:

- **Book catalogue server** (`BookStore.dfy`). An Express service keeps an
  in-memory, ordered list of books. It can list them, create one (title,
  author and publication date are required, and the id is a fresh UUID), get
  one by id, and delete one by id. Each endpoint is a pure function of the
  list: list and get return a reply, while create and delete return a reply
  and the new list. The class `Catalogue` holds the list as a field and
  proves that each method agrees with its function. Lemmas cover id
  distinctness, create-then-get, and delete-twice. The methods
  `ValidationScenario`, `OrderScenario` and `DeleteScenario` are worked
  examples of request sequences, not models of source lines.
- **Beginner exercises** (`Beginning.dfy`). These are the loops of
  `Beginning.js`:
  - sums, 10!, the odd sum;
  - array sum, positives filter, maximum;
  - `isPrime` and `sumPrime`, digit sum;
  - left and right rotation, reversal, string reversal;
  - concatenation, and CSV splitting.
  Loops are methods with invariants. Most are proved against a specification
  function; `MaxNum` and the three loops over constants are proved against
  their own `ensures`. Each function has a full contract, and most have a partner
  lemma: sum over concatenation, casting out nines, rotations undoing each
  other, double reversal, and the CSV round trip.
- **FLAMES game** (`Flames.dfy`):
  - the character-cancel loop;
  - the elimination over `F L A M E S`, with JavaScript `%` and
    `splice`;
  - the word switch;
  - the text written to the page.
- **Static file server** (`StaticServer.dfy`):
  - the URL-to-file choice;
  - the extension-to-content-type switch;
  - the 200, 404 and 500 responses of the `readFile` callback.
- **Course form** (`FormRules.dfy`):
  - the name, email and favourite-course validation rules (the e-mail rule
    is proved equal to the language of `^\S+@\S+$`);
  - the checkbox/text change handler.

`JsBuiltins.dfy` writes out the JavaScript built-ins these scripts use, with
their edge cases:
- `trim` with the ECMAScript whitespace set;
- `split` on one character, and `join`;
- `replace` of the first occurrence;
- truncating `%`;
- `splice(k, 1)` with negative and out-of-range starts;
- `reverse`;
- a `JsArray` class for `shift`/`pop`/`push`/`unshift`/`reverse` in place,
  where `undefined` can enter an array.

Behaviour of the code as written that the model keeps:
- `isPrime` answers true for 1, 0 and negative numbers, so for n >= 1
  `sumPrime(n)` is the sum of the primes up to `n` plus one
  (`Beginning.PrimeSumCountsOne`); for n <= 0 the loop never runs and it is 0.
- Two functions are named `rotateArray`. Hoisting makes the second
  (right-rotation) one the only one called, so the demo call on
  `[10, 20, 30, 40]` rotates right (`Beginning.RotateDemo`).
- The FLAMES cancel loop sets the first name to the *second* name minus the
  character, then sets the second name to that minus the character again. The
  old first name is lost (`Flames.CancelStepDiscardsName1`). The loop walks
  the first name as it was on entry.
- The FLAMES guard builds its message without writing it, so nothing
  appears on the page (`None`).
- GET and DELETE act on the *first* book with the requested id. The code
  never checks that ids are unique (it trusts the UUID generator), so the
  model keeps first-match semantics. Distinct ids are proved to be an
  invariant that create with a fresh id and delete preserve. With distinct
  ids the first match is the only one, so deleting it deletes the book with
  that id (`BookStore.DeleteTwiceNotFound`).

## Model

| member | source | states |
|---|---|---|
| BookStore.FindIndex | Js_Backend/Nodejs_ExpressJs/BookManage/server.js:51 | `findIndex`: the first position whose id matches, and -1 exactly when no book has that id |
| BookStore.ListBooks | Js_Backend/Nodejs_ExpressJs/BookManage/server.js:17-19 | GET /books answers 200 with the whole list, in order |
| BookStore.CreateBook | Js_Backend/Nodejs_ExpressJs/BookManage/server.js:21-40 | a falsy title or author gives 400 'Title and author are required'; otherwise a falsy date gives 400 'Publication Date is required'; both leave the list unchanged; 201 exactly when all three are truthy, and then the new book is appended at the end |
| BookStore.GetBook | Js_Backend/Nodejs_ExpressJs/BookManage/server.js:42-48 | 404 'Book not found' exactly when no book has the id; otherwise 200 with the first book whose id matches |
| BookStore.DeleteBook | Js_Backend/Nodejs_ExpressJs/BookManage/server.js:50-57 | 404 with the list unchanged when the id is absent; otherwise 200 'Book deleted successfully' and the list minus the first match, the rest in order |
| BookStore.CreateKeepsIdsDistinct | Js_Backend/Nodejs_ExpressJs/BookManage/server.js:31-38 | creating with an id not yet present keeps ids pairwise distinct |
| BookStore.DeleteKeepsIdsDistinct | Js_Backend/Nodejs_ExpressJs/BookManage/server.js:55 | deleting keeps ids pairwise distinct |
| BookStore.DeleteTwiceNotFound | Js_Backend/Nodejs_ExpressJs/BookManage/server.js:50-57 | with distinct ids, deleting a present id succeeds and deleting it again is a 404 |
| BookStore.CreateThenGet | Js_Backend/Nodejs_ExpressJs/BookManage/server.js:31-47 | a created book is what GET returns for its new id |
| BookStore.Catalogue.constructor | Js_Backend/Nodejs_ExpressJs/BookManage/server.js:8 | the catalogue starts empty |
| BookStore.Catalogue.List | Js_Backend/Nodejs_ExpressJs/BookManage/server.js:17-19 | the reply equals ListBooks of the current list |
| BookStore.Catalogue.Create | Js_Backend/Nodejs_ExpressJs/BookManage/server.js:21-40 | reply and new list equal CreateBook of the old list; distinct ids stay distinct for a fresh id |
| BookStore.Catalogue.IndexOf | Js_Backend/Nodejs_ExpressJs/BookManage/server.js:43 | the linear scan returns FindIndex |
| BookStore.Catalogue.Get | Js_Backend/Nodejs_ExpressJs/BookManage/server.js:42-48 | the reply equals GetBook of the current list |
| BookStore.Catalogue.Delete | Js_Backend/Nodejs_ExpressJs/BookManage/server.js:50-57 | reply and new list equal DeleteBook of the old list; distinct ids stay distinct |
| Beginning.SumOneToTen | Javascript/Beginning.js:34-38 | the loop yields 55 |
| Beginning.FactorialOfTen | Javascript/Beginning.js:41-45 | the loop yields 10! = 3628800 |
| Beginning.OddSumElevenToTwentyNine | Javascript/Beginning.js:48-53 | the loop over 11, 13, …, 29 yields 200 |
| Beginning.SumConcat | Javascript/Beginning.js:68-74 | the array sum distributes over concatenation |
| Beginning.Summ | Javascript/Beginning.js:68-74 | returns the sum of the array |
| Beginning.Positives | Javascript/Beginning.js:92-101 | keeps exactly the elements greater than 0, each as often as in the input |
| Beginning.PositivesConcat | Javascript/Beginning.js:92-101 | filtering distributes over concatenation |
| Beginning.GetPo | Javascript/Beginning.js:92-101 | the push loop returns Positives of the input, in order |
| Beginning.MaxNum | Javascript/Beginning.js:107-115 | undefined for an empty array; otherwise an element no smaller than any other |
| Beginning.IsPrime | Javascript/Beginning.js:120-127 | true exactly when no d with 2 <= d < num divides num (so also for num < 2) |
| Beginning.NoDivisorMeansNoFactorisation | Javascript/Beginning.js:120-127 | for num >= 2 the test is primality: no product of two factors >= 2 equals num |
| Beginning.PrimeSumCountsOne | Javascript/Beginning.js:153-161 | for n >= 1, what sumPrime adds exceeds the sum of the primes up to n by one (1 passes isPrime) |
| Beginning.SumPrime | Javascript/Beginning.js:153-161 | returns the sum of every j in 1..n that passes isPrime |
| Beginning.DigitSumModNine | Javascript/Beginning.js:131-138 | a number and its digit sum agree modulo 9 |
| Beginning.DigitSumAtMost | Javascript/Beginning.js:131-138 | the digit sum never exceeds the number |
| Beginning.SumPo | Javascript/Beginning.js:131-138 | the digit sum of a positive number; 0 for num <= 0 |
| Beginning.RotatedLeft | Javascript/Beginning.js:179-183 | the first element moves to the end, a permutation; on [] it yields [undefined] |
| Beginning.RotatedRight | Javascript/Beginning.js:195-199 | the last element moves to the front, a permutation; on [] it yields [undefined] |
| Beginning.RotationsUndoEachOther | Javascript/Beginning.js:179-199 | on a non-empty array, each rotation undoes the other |
| Beginning.RotationsGrowEmpty | Javascript/Beginning.js:179-199 | rotating an empty array yields [undefined] either way |
| Beginning.RotateLeft | Javascript/Beginning.js:179-183 | shift then push rotates the array in place, and it is returned |
| Beginning.RotateDemo | Javascript/Beginning.js:184-185 | the call after the first declaration reaches the hoisted right rotation: [10, 20, 30, 40] becomes [40, 10, 20, 30] |
| Beginning.RotateArray | Javascript/Beginning.js:195-199 | pop then unshift rotates the array in place, and it is returned |
| Beginning.ReverseArray | Javascript/Beginning.js:188-190 | the array is reversed in place, and it is returned |
| Beginning.ReverseStr | Javascript/Beginning.js:204-206 | position i of the result is position n-1-i of the input |
| Beginning.ReverseStrTwice | Javascript/Beginning.js:204-206 | reversing twice gives back the string |
| Beginning.MergeArr | Javascript/Beginning.js:212-214 | the first array followed by the second |
| Beginning.CsvToArray | Javascript/Beginning.js:225-232 | at least one row, each with at least one cell, and no cell holds ';' or a newline |
| Beginning.CsvRoundTrip | Javascript/Beginning.js:225-232 | rejoining cells with ';' and rows with newline gives the trimmed text |
| Flames.CancelStep | Js_Backend/Nodejs_ExpressJs/flames/public/script.js:10-12 | a character absent from the second name changes nothing; otherwise the new first name is the second name with its first occurrence of the character deleted and the rest in order, and the new second name is that with its first remaining occurrence deleted, or unchanged when none is left |
| Flames.CancelStepDiscardsName1 | Js_Backend/Nodejs_ExpressJs/flames/public/script.js:11 | a step that fires does not depend on the old first name |
| Flames.CancelLetters | Js_Backend/Nodejs_ExpressJs/flames/public/script.js:9-13 | the loop over the entry-time first name yields the Cancel fold |
| Flames.Survivor | Js_Backend/Nodejs_ExpressJs/flames/public/script.js:17-21 | the surviving letter is one of the letters started with |
| Flames.RoundRemovesOneLetter | Js_Backend/Nodejs_ExpressJs/flames/public/script.js:19-20 | each round's JavaScript remainder lies strictly between -len and len, and splice removes exactly one letter there |
| Flames.Eliminate | Js_Backend/Nodejs_ExpressJs/flames/public/script.js:16-21 | the while loop leaves Survivor's letter, one of F L A M E S, after exactly five rounds |
| Flames.Word | Js_Backend/Nodejs_ExpressJs/flames/public/script.js:23-43 | each of the six letters maps to the word starting with it; anything else leaves '' |
| Flames.FlamesWordIsOneOfSix | Js_Backend/Nodejs_ExpressJs/flames/public/script.js:15-43 | the game always picks one of the six words |
| Flames.CalculateFrames | Js_Backend/Nodejs_ExpressJs/flames/public/script.js:1-45 | nothing is written exactly when a name is empty; otherwise '<name1> and <name2> are <word>.' with the names as typed |
| Flames.ZeroLengthRemovesLastLetterFirst | Js_Backend/Nodejs_ExpressJs/flames/public/script.js:19-20 | with total length 0 the first index is -1, and splice(-1, 1) drops the last letter S |
| Flames.IdenticalOneLetterNames | Js_Backend/Nodejs_ExpressJs/flames/public/script.js:9-15 | two identical one-letter names cancel to a total length of 0 |
| StaticServer.RequestedFile | Js_Backend/Nodejs_ExpressJs/flames/server.js:7 | '/' serves index.html; any other URL is looked up as given |
| StaticServer.ContentType | Js_Backend/Nodejs_ExpressJs/flames/server.js:9-28 | text/html exactly when the extension is none of .js .css .json .png .jpg .jpeg; always one of six types |
| StaticServer.KnownContentTypes | Js_Backend/Nodejs_ExpressJs/flames/server.js:11-27 | the type for each listed extension; .jpg and .jpeg share image/jpeg |
| StaticServer.Respond | Js_Backend/Nodejs_ExpressJs/flames/server.js:31-46 | 200 with the content type and the bytes exactly when the read succeeds; 404 text/plain '404 Not Found' exactly for ENOENT; 500 text/plain '500 Internal Server Error' for other errors |
| StaticServer.ErrorsArePlainText | Js_Backend/Nodejs_ExpressJs/flames/server.js:32-40 | every error response is plain text |
| FormRules.NameRule | React/components/MyForm.js:15 | accepted exactly when the name has a non-whitespace character; otherwise 'Name is required' |
| FormRules.LooksLikeEmailMatches | React/components/MyForm.js:16 | the computable test equals the language of ^\S+@\S+$ |
| FormRules.EmailRule | React/components/MyForm.js:16 | accepted exactly when the value matches ^\S+@\S+$; otherwise 'Invalid email' |
| FormRules.CoursesRule | React/components/MyForm.js:17 | accepted exactly when at least one course is selected; otherwise 'Select at least one favorite course' |
| FormRules.InitialValuesFailEveryRule | React/components/MyForm.js:7-17 | the initial empty values fail all three rules |
| FormRules.HandleChange | React/components/MyForm.js:25-29 | the field named by the input gets its checked flag exactly when it is a checkbox, and its text otherwise |
| JsBuiltins.Trim | React/components/MyForm.js:15 | `trim`: the input is whitespace, then the result, then whitespace; the result is empty exactly when the input is all whitespace, and otherwise starts and ends with a non-whitespace character |
| JsBuiltins.Split | Javascript/Beginning.js:226-228 | `split` on one character: at least one piece, none holding the separator, and every character of a piece comes from the input |
| JsBuiltins.JoinSplit | Javascript/Beginning.js:226-228 | joining the pieces of a split gives back the text |
| JsBuiltins.SplitJoin | Javascript/Beginning.js:226-228 | splitting the join of separator-free pieces gives back the pieces |
| JsBuiltins.IndexOf | Js_Backend/Nodejs_ExpressJs/flames/public/script.js:11-12 | the first position holding the character, -1 exactly when it is absent |
| JsBuiltins.ReplaceFirst | Js_Backend/Nodejs_ExpressJs/flames/public/script.js:11-12 | `replace(c, "")` deletes the first occurrence of c and keeps the rest in order, one fewer c in all; nothing changes when c is absent |
| JsBuiltins.JsRem | Js_Backend/Nodejs_ExpressJs/flames/public/script.js:19 | JavaScript `%`: strictly between -n and n, with the dividend's sign |
| JsBuiltins.JsRemDivision | Js_Backend/Nodejs_ExpressJs/flames/public/script.js:19 | the remainder completes truncating division: a = quotient * n + remainder |
| JsBuiltins.SpliceStart | Js_Backend/Nodejs_ExpressJs/flames/public/script.js:20 | a start in 0..len is used as is; a start in -len..-1 counts from the end; a start below -len becomes 0 and one above len becomes len |
| JsBuiltins.SpliceOne | Js_Backend/Nodejs_ExpressJs/BookManage/server.js:55 | `splice(k, 1)`: for k in -len..len-1, removes exactly the element at the resolved start and keeps the rest in order; a start at or past the end changes nothing; a start below -len removes the first element |
| JsBuiltins.Reversed | Javascript/Beginning.js:189 | position i holds the input's position n-1-i |
| JsBuiltins.ReversedTwice | Javascript/Beginning.js:189 | reversing twice gives back the sequence |
| JsBuiltins.JsArray.constructor | Javascript/Beginning.js:184 | an array literal holds the given elements |
| JsBuiltins.JsArray.Shift | Javascript/Beginning.js:180 | `shift` removes and returns the first element; undefined on an empty array, which stays empty |
| JsBuiltins.JsArray.Push | Javascript/Beginning.js:181 | `push` appends the value |
| JsBuiltins.JsArray.Pop | Javascript/Beginning.js:196 | `pop` removes and returns the last element; undefined on an empty array, which stays empty |
| JsBuiltins.JsArray.Unshift | Javascript/Beginning.js:197 | `unshift` prepends the value |
| JsBuiltins.JsArray.Reverse | Javascript/Beginning.js:189 | `reverse` reverses the elements in place |

## Left out

- HTTP and Express plumbing is not modelled:
  - routing, JSON parsing and serialisation, static middleware;
  - `res.sendFile` of the index page;
  - `listen` and its log line.
  Each endpoint takes its inputs as values and returns the status and the payload.
- `uuidv4()`: the new id is a parameter of create. Its uniqueness is a precondition of the distinctness lemmas; it is not a property of the model.
- The request body's fields are taken as optional strings; non-string JSON values and their truthiness are not modelled.
- Concurrency: each request runs to completion before the next one, as in Node's single thread.
- Numbers are unbounded integers. Floating point is out of scope, so `conversion`, `conveTwo` and `avgg` (division producing fractions) are left out.
- Beginning.SumPo: `parseInt(num / 10)` is modelled as integer division. That matches JavaScript only while `num / 10` is below 10^21. From there on, `num / 10` prints in exponent notation and `parseInt` keeps only its leading digit, so for such inputs the source's result differs from the digit sum the model computes. Numbers that large are also past the 2^53 range where JavaScript numbers are exact integers.
- Code that only prints is not modelled: the loops at the top of `Beginning.js`, `numTab`, `nPrime`, `getPrime`, and every `console.log`.
- The unused `var result = 0` in `getPo` is not modelled.
- Strings are sequences of Unicode characters. JavaScript's `length`, `split("")` and `reverse` count UTF-16 code units, so strings outside the Basic Multilingual Plane are not modelled as JavaScript handles them.
- The DOM is not modelled:
  - reading the two name inputs, which become parameters;
  - writing `innerHTML`, which becomes the returned text.
- Flames.Eliminate: the concrete word for particular names is not evaluated. The model proves what holds for every input: the survivor is one of the six letters, and the word is one of the six words.
- The static server's `path.join`, `path.extname` and `fs.readFile` are not modelled. The extension and the outcome of the read are parameters, so path normalisation and directory traversal are not modelled.
- FormRules.EmailRule: the regular-expression engine itself is not modelled. The rule is proved equal to the language of the pattern.
- The Mantine `useForm` hook, submit handling and the JSX layout of `MyForm.js` are not modelled. The form itself is not modelled: the change handler returns the field name and value it would pass to `setFieldValue`.
- `Nodejs/server.js` and `Nodejs/BookManage/public/script.js` are not part of this model.
