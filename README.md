# Libreria: a verified model of the in-memory book catalogue

`libreria.py` defines `Libreria`, a catalogue that keeps book records
(`titulo`, `autor`, `genero`, `anio`) in one ordered list, `libros`. It adds a
record after checking that the year is an `int`, finds records by title
(case-insensitive, whole title) and by author (case-insensitive substring),
removes every record with a given title and says whether anything went, and
counts the records.

The model is in Dafny, in four modules:

- `PyStrings` (`pystrings.dfy`): the two Python string built-ins the catalogue
  uses. `Lower` is `str.lower()`, one character at a time. `Contains` is the
  `in` operator between strings, proved equal to "occurs as a contiguous block".
- `Comprehension` (`comprehension.dfy`): the filtering list comprehension
  `[x for x in s if p(x)]` as the recursive function `Filter`. `FilterSpec`
  proves that the result is exactly the passing elements, each as often as in
  `s`, in their order in `s`. `FilterUnique` shows that these facts leave only
  one possible result.
- `Catalog` (`catalog.dfy`): the records, the year check, and the class
  `Libreria`. The class has a `seq<Libro>` field that `AnadirLibro` and
  `EliminarLibro` reassign. The searches and the count are functions that read
  the field. Lemmas state case-insensitivity, the empty author query and
  idempotent removal.
- `CatalogScenario` (`scenario.dfy`): the unit tests of `test_libreria.py`, one
  member per test, each from the two novels the tests start with. It covers the
  additions with a negative and a string year, the three title queries, the three
  author queries, the two removals and the four counts. Two further walks are not
  in the tests. "gabriel" shows that an author fragment is found as a substring.
  Removing "cien años de soledad" twice shows removal ignoring case and a repeated
  removal finding nothing.

The year argument is a tagged Python value (`PyInt`, `PyBool`, `PyStr`,
`PyOther`), so `isinstance(anio, int)` and the `TypeError` it guards are both
modelled. The exception is the `Raise` case of a `Result`. The code accepts a
`bool` year, because `bool` is a subclass of `int` in Python. The model follows
the code here, where a plain reading of "the year is an integer" would refuse it.

## Model

| member | source | states |
|---|---|---|
| PyStrings.LowerChar | libreria.py:44 | a lowered character is never a capital; a capital becomes the letter 32 code points further on, and any other character is left unchanged |
| PyStrings.Lower | libreria.py:44 | `str.lower()` keeps the length and leaves no capital |
| PyStrings.LowerCharSame | libreria.py:44 | two characters lower alike exactly when they are equal or one is the capital of the other |
| PyStrings.LowerSame | libreria.py:44 | two strings lower alike exactly when they are as long and agree at every position up to case |
| PyStrings.LowerIdempotent | libreria.py:44 | lowering twice gives the same as lowering once |
| PyStrings.Contains | libreria.py:56 | `needle in hay` is true exactly when `needle` occurs in `hay` at some position as a contiguous block |
| PyStrings.ContainsItself | libreria.py:56 | every string is in itself |
| PyStrings.EmptyIsInEverything | libreria.py:56 | the empty string is in every string |
| PyStrings.CharsOfSubstring | libreria.py:56 | every character of a string found in `hay` is a character of `hay` |
| Comprehension.Filter | libreria.py:44 | the comprehension never yields more elements than its input |
| Comprehension.FilterSpec | libreria.py:44 | the comprehension keeps exactly the elements that pass, each as often as in the input, as a subsequence of the input |
| Comprehension.FilterIsSubsequence | libreria.py:44 | the comprehension's result keeps the input's order: it is the input with some elements deleted |
| Comprehension.FilterCounts | libreria.py:44 | the comprehension's result holds each passing value as often as the input does, and no other value |
| Comprehension.FilterUnique | libreria.py:44 | any subsequence of the input that holds the passing elements as often as the input does, and nothing else, equals the comprehension's result |
| Comprehension.FilterAppend | libreria.py:31 | filtering a list with one more element at the end adds that element at the end of the result when it passes, and changes nothing otherwise |
| Comprehension.FilterAgree | libreria.py:44 | two conditions that agree on every element select the same list |
| Comprehension.FilterSplit | libreria.py:68-69 | the elements kept by a condition and by its negation number as many as the input |
| Comprehension.FilterKeepsAll | libreria.py:69-70 | the result is as long as the input exactly when every element passes, and then it is the input itself |
| Catalog.IsInstanceInt | libreria.py:29 | `isinstance(anio, int)` holds for an `int` and for a `bool`, and for nothing else |
| Catalog.Remaining | libreria.py:69 | what removal leaves is exactly the records whose lowered title differs from the lowered query, each as often as before, in their old order |
| Catalog.Libreria.constructor | libreria.py:12-14 | a new catalogue holds no record and counts 0 |
| Catalog.Libreria.AnadirLibro | libreria.py:29-32 | with an `int` (or `bool`) year, appends exactly the record at the end, keeping every earlier record, and returns "Libro añadido"; the count grows by one. Otherwise it raises `TypeError` and the list is unchanged. Every record held keeps an integer year |
| Catalog.Libreria.BuscarLibro | libreria.py:44 | the result is exactly the records whose lowered title equals the lowered query, each as often as held, in the order held |
| Catalog.Libreria.BuscarPorAutor | libreria.py:56 | the result is exactly the records whose lowered author contains the lowered query, each as often as held, in the order held |
| Catalog.Libreria.EliminarLibro | libreria.py:68-70 | the list becomes the non-matching records in their order. It returns "Libro eliminado" exactly when some record matched, and otherwise "Libro no encontrado" with the list unchanged. The count drops by the number of matches, and a title search afterwards finds nothing |
| Catalog.Libreria.ContarLibros | libreria.py:110 | the count is the number of records held, read without changing anything |
| Catalog.BuscarLibroIgnoresCase | libreria.py:44 | two title queries that differ only in the case of their letters find the same records in the same order |
| Catalog.BuscarPorAutorIgnoresCase | libreria.py:56 | two author queries that differ only in the case of their letters find the same records in the same order |
| Catalog.EmptyAuthorFindsAll | libreria.py:56 | the empty author query finds every record, in order |
| Catalog.AddedRecordFoundLast | libreria.py:31 | after a record is appended, a search for its title finds what the same search found in the earlier records, then the new record |
| Catalog.RemovalLength | libreria.py:68-70 | removal shortens the list by the number of records a title search finds; it shortens it exactly when some record matches, and otherwise the list is unchanged |
| Catalog.NothingFoundAfterRemoval | libreria.py:69 | after a removal, a search for the same title finds nothing |
| Catalog.RemovalIdempotent | libreria.py:68-70 | after a removal no record with that title is left, so a second removal finds nothing and keeps the list |
| Catalog.RemovalPartition | libreria.py:69 | the records a title search finds and the records a removal keeps together make up the catalogue |
| CatalogScenario.AddNovels | test_libreria.py:9-13 | adding the two test novels to an empty catalogue holds exactly them, in order, and counts 2 |
| CatalogScenario.TestAnadirLibro | test_libreria.py:21-32 | on the two novels, "1984" is added and the count is 3; a book with year -500 is added and the count is 4; a string year raises `TypeError` and the count stays 4 |
| CatalogScenario.TestBuscarLibro | test_libreria.py:34-45 | on the two novels, "Cien años de soledad" and "cien años de soledad" each find only the novel by Gabriel García Márquez, and "El señor de los anillos" finds nothing |
| CatalogScenario.TestBuscarPorAutor | test_libreria.py:47-58 | on the two novels, "Gabriel García Márquez" finds only "Cien años de soledad", "J.R.R. Tolkien" finds nothing, and "miguel de cervantes" finds only "Don Quijote de la Mancha" |
| CatalogScenario.TestEliminarLibro | test_libreria.py:60-68 | on the two novels, removing "Cien años de soledad" reports "Libro eliminado" and leaves one record; removing "El señor de los anillos" then reports "Libro no encontrado" and the one record stays |
| CatalogScenario.Search1984 | test_libreria.py:93-99 | with "1984" added after the two novels, a title search for "1984" finds only its record, by George Orwell |
| CatalogScenario.TestIntegracion | test_libreria.py:91-102 | without the file round trip: with "1984" added to the two novels, a search for "1984" finds only Orwell's record, and removing it reports "Libro eliminado" and leaves 2 records |
| CatalogScenario.TestContarLibros | test_libreria.py:104-116 | the count is 2 for the two novels, 3 after adding "1984", 2 after removing it, and 0 after removing both novels |
| CatalogScenario.AuthorFragmentGabriel | libreria.py:56 | not in the tests: on the two novels, the fragment "gabriel" finds only the novel by Gabriel García Márquez, since the author search is a substring test |
| CatalogScenario.RemoveTwice | libreria.py:68-70 | not in the tests: on the two novels, removing "cien años de soledad" removes the first novel and leaves one record; a second identical removal reports "Libro no encontrado" |

## Left out

- `guardar_libros` and `cargar_libros` (libreria.py:72-101) are not modelled. They are file I/O with `json.dump` and `json.load`. Loading replaces the list wholesale and can break the integer-year invariant, which the model keeps.
- The demo at libreria.py:113-118 is left out. It uses a global instance, writes a file and prints.
- PyStrings.Lower covers only the ASCII and Latin-1 capitals (A..Z, U+00C0..U+00DE except U+00D7), one character to one. Python's `str.lower()` lowers many more characters, from other scripts, and lengthens one: U+0130 becomes 'i' followed by U+0307. Catalog.BuscarLibroIgnoresCase, Catalog.BuscarPorAutorIgnoresCase and the scenario depend on this character map. The other catalogue lemmas hold for any lowering that maps the empty string to itself.
- Titles, authors and genres are strings in the model. In Python they may be any value, and a non-string title would raise `AttributeError` in a title search or a removal, and a non-string author in an author search. That error path is not modelled.
- AnadirLibro and EliminarLibro: the identity of the `libros` list object is not captured. `anadir_libro` appends to the same list in place (libreria.py:31), while `eliminar_libro` binds a new list (libreria.py:69). A direct reference to `lib.libros` therefore sees the additions made through `anadir_libro` until the next `eliminar_libro` rebinds the field, and it never sees a removal. The lists the searches return are new lists, so they see neither. The model only reassigns the field's value.
- `test_guardar_libros`, `test_cargar_libros` and `test_integracion` (test_libreria.py:70-102) go through a JSON file, so their walks are not modelled. The addition, search and removal of "1984" in `test_integracion` are walked on the catalogue that made the addition, without the file in between, by `TestIntegracion`.
- Records are values. The source's records are mutable dictionaries shared between `libros` and the lists the searches return. Aliasing through them is not modelled.
- `Contains` scans start positions from the left. CPython's substring search uses a faster algorithm with the same result. Only the result is modelled.
