/** The unit tests of the catalogue, walked through on the model one test at a time,
    each from the two novels every test starts with; then two further walks that the
    tests do not make. Every step follows from the operations' contracts and the
    definitions of their filters. */
module CatalogScenario {
  import opened PyStrings
  import opened Comprehension
  import opened Catalog

  /** The two novels every test starts from. */
  function Novelas(): seq<Libro>
  {
    [Libro("Cien años de soledad", "Gabriel García Márquez", "Novela", PyInt(1967)),
     Libro("Don Quijote de la Mancha", "Miguel de Cervantes", "Novela", PyInt(1605))]
  }

  /** The record the tests add on top of the two novels. */
  function Orwell(): Libro
  {
    Libro("1984", "George Orwell", "Distopía", PyInt(1949))
  }

  /** Filtering a list of two keeps each of the two exactly when it passes. */
  lemma FilterOfTwo<T>(s: seq<T>, p: T -> bool)
    requires |s| == 2
    ensures Filter(s, p) == (if p(s[0]) then [s[0]] else []) + (if p(s[1]) then [s[1]] else [])
  {
    var tail := s[1..];
    assert tail[1..] == [];
    assert Filter(tail, p) == (if p(s[1]) then [s[1]] else []) + Filter(tail[1..], p);
  }

  /** Start empty and add the two novels: both are held, in order, and they count 2. */
  method AddNovels() returns (lib: Libreria)
    ensures fresh(lib) && lib.libros == Novelas() && lib.ContarLibros() == 2
  {
    lib := new Libreria();
    var r := lib.AnadirLibro("Cien años de soledad", "Gabriel García Márquez", "Novela", PyInt(1967));
    assert r == Ok(LibroAnadido);
    r := lib.AnadirLibro("Don Quijote de la Mancha", "Miguel de Cervantes", "Novela", PyInt(1605));
  }

  /** Adding to the two novels: "1984" and a book with a negative year are added and
      the count goes to 3 and then 4; a book whose year is the string "año" raises
      `TypeError` and the count stays 4. */
  method TestAnadirLibro() returns (typical: Result<string>, negative: Result<string>, wrong: Result<string>, n1: nat, n2: nat, n3: nat)
    ensures typical == Ok(LibroAnadido) && negative == Ok(LibroAnadido)
    ensures wrong == Raise(TypeError(AnioNoEntero))
    ensures n1 == 3 && n2 == 4 && n3 == 4
  {
    var lib := AddNovels();
    typical := lib.AnadirLibro("1984", "George Orwell", "Distopía", PyInt(1949));
    n1 := lib.ContarLibros();
    negative := lib.AnadirLibro("Libro Antiguo", "Autor Desconocido", "Historia", PyInt(-500));
    n2 := lib.ContarLibros();
    wrong := lib.AnadirLibro("Libro Erróneo", "Autor Erróneo", "Error", PyStr("año"));
    n3 := lib.ContarLibros();
  }

  /** The exact title finds the first novel. */
  lemma TitleSearchExact(lib: Libreria)
    requires lib.libros == Novelas()
    ensures lib.BuscarLibro("Cien años de soledad") == [Novelas()[0]]
  {
    FilterOfTwo(lib.libros, TitleIs("Cien años de soledad"));
  }

  /** A title that is not held finds nothing. */
  lemma TitleSearchMissing(lib: Libreria)
    requires lib.libros == Novelas()
    ensures lib.BuscarLibro("El señor de los anillos") == []
  {
    FilterOfTwo(lib.libros, TitleIs("El señor de los anillos"));
  }

  /** "Cien años de soledad" and "cien años de soledad" lower alike. */
  lemma CienLowersAlike()
    ensures Lower("Cien años de soledad") == Lower("cien años de soledad")
  {
    LowerSame("Cien años de soledad", "cien años de soledad");
  }

  /** The title in lower case still finds the first novel. */
  lemma TitleSearchLowerCase(lib: Libreria)
    requires lib.libros == Novelas()
    ensures lib.BuscarLibro("cien años de soledad") == [Novelas()[0]]
  {
    CienLowersAlike();
    FilterOfTwo(lib.libros, TitleIs("cien años de soledad"));
  }

  /** The title searches of the tests, on the two novels: "Cien años de soledad" and
      "cien años de soledad" find the first novel (by García Márquez) and only it, and
      "El señor de los anillos" finds nothing. */
  lemma TestBuscarLibro(lib: Libreria)
    requires lib.libros == Novelas()
    ensures lib.BuscarLibro("Cien años de soledad") == [Novelas()[0]]
    ensures lib.BuscarLibro("El señor de los anillos") == []
    ensures lib.BuscarLibro("cien años de soledad") == [Novelas()[0]]
    ensures Novelas()[0].autor == "Gabriel García Márquez"
  {
    TitleSearchExact(lib);
    TitleSearchMissing(lib);
    TitleSearchLowerCase(lib);
  }

  /** The whole author name finds its own novel; it is longer than the other author,
      so it is not in it. */
  lemma AuthorSearchMarquez(lib: Libreria)
    requires lib.libros == Novelas()
    ensures lib.BuscarPorAutor("Gabriel García Márquez") == [Novelas()[0]]
  {
    ContainsItself(Lower("Gabriel García Márquez"));
    FilterOfTwo(lib.libros, AuthorHas("Gabriel García Márquez"));
  }

  /** "J.R.R. Tolkien" lowers to a string with a 'j', and neither author has one. */
  lemma TolkienInNeither()
    ensures !Contains(Lower("Gabriel García Márquez"), Lower("J.R.R. Tolkien"))
    ensures !Contains(Lower("Miguel de Cervantes"), Lower("J.R.R. Tolkien"))
  {
    var q := Lower("J.R.R. Tolkien");
    assert q[0] == 'j';
    assert 'j' !in Lower("Gabriel García Márquez");
    assert 'j' !in Lower("Miguel de Cervantes");
    if Contains(Lower("Gabriel García Márquez"), q) {
      CharsOfSubstring(q, Lower("Gabriel García Márquez"), 'j');
    }
    if Contains(Lower("Miguel de Cervantes"), q) {
      CharsOfSubstring(q, Lower("Miguel de Cervantes"), 'j');
    }
  }

  /** An author that is not held finds nothing. */
  lemma AuthorSearchTolkien(lib: Libreria)
    requires lib.libros == Novelas()
    ensures lib.BuscarPorAutor("J.R.R. Tolkien") == []
  {
    TolkienInNeither();
    FilterOfTwo(lib.libros, AuthorHas("J.R.R. Tolkien"));
  }

  /** "miguel de cervantes" and "Miguel de Cervantes" lower alike, with a 'v' at 13. */
  lemma CervantesLowersAlike()
    ensures Lower("miguel de cervantes") == Lower("Miguel de Cervantes")
    ensures Lower("miguel de cervantes")[13] == 'v'
  {
    LowerSame("miguel de cervantes", "Miguel de Cervantes");
  }

  /** The lowered "Gabriel García Márquez" has no 'v'. */
  lemma NoVInMarquez()
    ensures 'v' !in Lower("Gabriel García Márquez")
  {
  }

  /** "miguel de cervantes" lowers to the lowered "Miguel de Cervantes", and it has a
      'v', which "Gabriel García Márquez" lacks. */
  lemma CervantesOnlyInCervantes()
    ensures Contains(Lower("Miguel de Cervantes"), Lower("miguel de cervantes"))
    ensures !Contains(Lower("Gabriel García Márquez"), Lower("miguel de cervantes"))
  {
    var q := Lower("miguel de cervantes");
    CervantesLowersAlike();
    ContainsItself(q);
    NoVInMarquez();
    if Contains(Lower("Gabriel García Márquez"), q) {
      CharsOfSubstring(q, Lower("Gabriel García Márquez"), 'v');
    }
  }

  /** The author name in lower case still finds its own novel, and only it. */
  lemma AuthorSearchCervantes(lib: Libreria)
    requires lib.libros == Novelas()
    ensures lib.BuscarPorAutor("miguel de cervantes") == [Novelas()[1]]
  {
    CervantesOnlyInCervantes();
    FilterOfTwo(lib.libros, AuthorHas("miguel de cervantes"));
  }

  /** The author searches of the tests, on the two novels: "Gabriel García Márquez"
      finds "Cien años de soledad" and only it, "J.R.R. Tolkien" finds nothing, and
      "miguel de cervantes" finds "Don Quijote de la Mancha" and only it. */
  lemma TestBuscarPorAutor(lib: Libreria)
    requires lib.libros == Novelas()
    ensures lib.BuscarPorAutor("Gabriel García Márquez") == [Novelas()[0]]
    ensures lib.BuscarPorAutor("J.R.R. Tolkien") == []
    ensures lib.BuscarPorAutor("miguel de cervantes") == [Novelas()[1]]
    ensures Novelas()[0].titulo == "Cien años de soledad" && Novelas()[1].titulo == "Don Quijote de la Mancha"
  {
    AuthorSearchMarquez(lib);
    AuthorSearchTolkien(lib);
    AuthorSearchCervantes(lib);
  }

  /** Of the two novels, removing "Cien años de soledad" keeps only the second. */
  lemma RemovalOfCien(s: seq<Libro>)
    requires s == Novelas()
    ensures Remaining(s, "Cien años de soledad") == [s[1]]
  {
    FilterOfTwo(s, TitleIsNot("Cien años de soledad"));
  }

  /** Removing from the two novels: "Cien años de soledad" is removed and one record
      is left; "El señor de los anillos" is not found and the one record stays. */
  method TestEliminarLibro(lib: Libreria) returns (first: string, second: string)
    requires lib.libros == Novelas()
    modifies lib
    ensures first == LibroEliminado && second == LibroNoEncontrado
    ensures lib.libros == [Novelas()[1]] && lib.ContarLibros() == 1
  {
    RemovalOfCien(lib.libros);
    first := lib.EliminarLibro("Cien años de soledad");
    second := lib.EliminarLibro("El señor de los anillos");
  }

  /** With "1984" added after the two novels, removing "1984" gives the novels back. */
  lemma RemovalOf1984()
    ensures Remaining(Novelas() + [Orwell()], "1984") == Novelas()
  {
    var p := TitleIsNot("1984");
    assert p(Novelas()[0]) by {
      assert |Lower(Novelas()[0].titulo)| != |Lower("1984")|;
    }
    assert p(Novelas()[1]) by {
      assert |Lower(Novelas()[1].titulo)| != |Lower("1984")|;
    }
    FilterAppend(Novelas(), Orwell(), p);
    FilterOfTwo(Novelas(), p);
  }

  /** With "1984" added after the two novels, a search for "1984" finds only its
      record, by George Orwell. */
  lemma Search1984(lib: Libreria)
    requires lib.libros == Novelas() + [Orwell()]
    ensures lib.BuscarLibro("1984") == [Orwell()]
    ensures Orwell().autor == "George Orwell"
  {
    var p := TitleIs("1984");
    assert !p(Novelas()[0]) by {
      assert |Lower(Novelas()[0].titulo)| != |Lower("1984")|;
    }
    assert !p(Novelas()[1]) by {
      assert |Lower(Novelas()[1].titulo)| != |Lower("1984")|;
    }
    FilterAppend(Novelas(), Orwell(), p);
    FilterOfTwo(Novelas(), p);
  }

  /** The walk of the integration test on the catalogue that made the addition: with
      "1984" added to the two novels, a search for "1984" finds only Orwell's record,
      and removing "1984" reports "Libro eliminado" and leaves two records. */
  method TestIntegracion() returns (found: seq<Libro>, msg: string, n: nat)
    ensures found == [Orwell()] && found[0].autor == "George Orwell"
    ensures msg == LibroEliminado && n == 2
  {
    var lib := AddNovels();
    var r := lib.AnadirLibro("1984", "George Orwell", "Distopía", PyInt(1949));
    Search1984(lib);
    found := lib.BuscarLibro("1984");
    RemovalOf1984();
    msg := lib.EliminarLibro("1984");
    n := lib.ContarLibros();
  }

  /** With only the second novel left, removing its title leaves nothing. */
  lemma RemovalOfQuijote()
    ensures Remaining([Novelas()[1]], "Don Quijote de la Mancha") == []
  {
  }

  /** Counting from the two novels: 2; after adding "1984", 3; after removing it, 2;
      after removing both novels, 0. */
  method TestContarLibros() returns (n0: nat, n1: nat, n2: nat, n3: nat)
    ensures n0 == 2 && n1 == 3 && n2 == 2 && n3 == 0
  {
    var lib := AddNovels();
    n0 := lib.ContarLibros();
    var r := lib.AnadirLibro("1984", "George Orwell", "Distopía", PyInt(1949));
    n1 := lib.ContarLibros();
    RemovalOf1984();
    var msg := lib.EliminarLibro("1984");
    n2 := lib.ContarLibros();
    RemovalOfCien(lib.libros);
    msg := lib.EliminarLibro("Cien años de soledad");
    RemovalOfQuijote();
    msg := lib.EliminarLibro("Don Quijote de la Mancha");
    n3 := lib.ContarLibros();
  }

  // Two walks the tests do not make.

  /** "gabriel" is in the lowered "Gabriel García Márquez", at its start. */
  lemma GabrielInMarquez()
    ensures Contains(Lower("Gabriel García Márquez"), Lower("gabriel"))
  {
    assert Lower("gabriel") == "gabriel";
    assert Lower("Gabriel García Márquez")[..7] == "gabriel";
  }

  /** "gabriel" is not in the lowered "Miguel de Cervantes", which has no 'b'. */
  lemma GabrielNotInCervantes()
    ensures !Contains(Lower("Miguel de Cervantes"), Lower("gabriel"))
  {
    assert Lower("gabriel") == "gabriel";
    assert 'b' !in Lower("Miguel de Cervantes");
    if Contains(Lower("Miguel de Cervantes"), "gabriel") {
      CharsOfSubstring("gabriel", Lower("Miguel de Cervantes"), 'b');
    }
  }

  /** A fragment of an author's name finds by substring: with the two novels held,
      "gabriel" finds only the first. */
  lemma AuthorFragmentGabriel(lib: Libreria)
    requires lib.libros == Novelas()
    ensures lib.BuscarPorAutor("gabriel") == [Novelas()[0]]
  {
    GabrielInMarquez();
    GabrielNotInCervantes();
    FilterOfTwo(lib.libros, AuthorHas("gabriel"));
  }

  /** Removal is by title ignoring case, and a repeated removal finds nothing: with the
      two novels held, removing "cien años de soledad" removes the first and leaves
      one record; removing it again reports "Libro no encontrado". */
  method RemoveTwice(lib: Libreria) returns (first: string, second: string)
    requires lib.libros == Novelas()
    modifies lib
    ensures first == LibroEliminado && second == LibroNoEncontrado
    ensures lib.libros == [Novelas()[1]] && lib.ContarLibros() == 1
  {
    CienLowersAlike();
    FilterOfTwo(lib.libros, TitleIsNot("cien años de soledad"));
    first := lib.EliminarLibro("cien años de soledad");
    second := lib.EliminarLibro("cien años de soledad");
  }
}
