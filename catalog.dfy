/** The book catalogue of `libreria.py`: an ordered list of book records held by a
    `Libreria` object, with add, find by title, find by author, remove by title and
    count. */
module Catalog {
  import opened PyStrings
  import opened Comprehension

  /** The Python values a caller may pass as the year. `PyOther` stands for every
      value that is neither an `int`, a `bool` nor a `str` (a float, `None`, a list, ...). */
  datatype PyValue = PyInt(i: int) | PyBool(b: bool) | PyStr(s: string) | PyOther

  /** `isinstance(v, int)`; `bool` is a subclass of `int` in Python, so it passes too. */
  predicate IsInstanceInt(v: PyValue)
  {
    v.PyInt? || v.PyBool?
  }

  /** One record `{'titulo': ..., 'autor': ..., 'genero': ..., 'anio': ...}`. */
  datatype Libro = Libro(titulo: string, autor: string, genero: string, anio: PyValue)

  /** The exception an operation raises instead of returning. */
  datatype PyError = TypeError(message: string)

  /** A returned value, or a raised exception. */
  datatype Result<T> = Ok(value: T) | Raise(error: PyError)

  const LibroAnadido: string := "Libro añadido"
  const LibroEliminado: string := "Libro eliminado"
  const LibroNoEncontrado: string := "Libro no encontrado"
  const AnioNoEntero: string := "El año debe ser un número entero."

  /** The condition of the title search: equal titles once both are lowered. */
  function TitleIs(titulo: string): Libro -> bool
  {
    (b: Libro) => Lower(b.titulo) == Lower(titulo)
  }

  /** The condition of the removal: the records that survive it. */
  function TitleIsNot(titulo: string): Libro -> bool
  {
    (b: Libro) => Lower(b.titulo) != Lower(titulo)
  }

  /** The condition of the author search: the lowered query occurs in the lowered author. */
  function AuthorHas(autor: string): Libro -> bool
  {
    (b: Libro) => Contains(Lower(b.autor), Lower(autor))
  }

  /** What is left of `s` once every record titled `titulo` (ignoring case) is removed:
      exactly the records with another title, as often as in `s`, in their order. */
  function Remaining(s: seq<Libro>, titulo: string): (r: seq<Libro>)
    ensures forall b :: b in r <==> b in s && Lower(b.titulo) != Lower(titulo)
    ensures forall b :: multiset(r)[b] == if Lower(b.titulo) != Lower(titulo) then multiset(s)[b] else 0
    ensures IsSubsequence(r, s)
  {
    FilterSpec(s, TitleIsNot(titulo));
    Filter(s, TitleIsNot(titulo))
  }

  class Libreria {
    /** The records, in the order they were added. */
    var libros: seq<Libro>

    /** Every record held has an integer year. The constructor establishes it and
        each method that changes the list preserves it, as `old(Valid()) ==> Valid()`;
        no method requires it, since the source checks nothing on entry. */
    ghost predicate Valid()
      reads this
    {
      forall b :: b in libros ==> IsInstanceInt(b.anio)
    }

    /** A new catalogue holds no record. */
    constructor ()
      ensures libros == [] && ContarLibros() == 0
      ensures Valid()
    {
      libros := [];
    }

    /** `anadir_libro`: appends the record when the year is an `int`, and raises
        `TypeError` without touching the list otherwise. */
    method AnadirLibro(titulo: string, autor: string, genero: string, anio: PyValue) returns (r: Result<string>)
      modifies this
      ensures IsInstanceInt(anio) ==> r == Ok(LibroAnadido) && libros == old(libros) + [Libro(titulo, autor, genero, anio)]
      ensures !IsInstanceInt(anio) ==> r == Raise(TypeError(AnioNoEntero)) && libros == old(libros)
      ensures ContarLibros() == old(ContarLibros()) + if r.Ok? then 1 else 0
      ensures old(Valid()) ==> Valid()
    {
      if !IsInstanceInt(anio) {
        return Raise(TypeError(AnioNoEntero));
      }
      libros := libros + [Libro(titulo, autor, genero, anio)];
      return Ok(LibroAnadido);
    }

    /** `buscar_libro`: the records whose title equals `titulo` ignoring case, each as
        often as it is held, in the order they are held. */
    function BuscarLibro(titulo: string): (r: seq<Libro>)
      reads this
      ensures forall b :: b in r <==> b in libros && Lower(b.titulo) == Lower(titulo)
      ensures forall b :: multiset(r)[b] == if Lower(b.titulo) == Lower(titulo) then multiset(libros)[b] else 0
      ensures IsSubsequence(r, libros)
    {
      FilterSpec(libros, TitleIs(titulo));
      Filter(libros, TitleIs(titulo))
    }

    /** `buscar_por_autor`: the records whose author contains `autor` ignoring case,
        each as often as it is held, in the order they are held. */
    function BuscarPorAutor(autor: string): (r: seq<Libro>)
      reads this
      ensures forall b :: b in r <==> b in libros && IsSubstring(Lower(autor), Lower(b.autor))
      ensures forall b :: multiset(r)[b] == if IsSubstring(Lower(autor), Lower(b.autor)) then multiset(libros)[b] else 0
      ensures IsSubsequence(r, libros)
    {
      FilterSpec(libros, AuthorHas(autor));
      Filter(libros, AuthorHas(autor))
    }

    /** `eliminar_libro`: keeps only the records with another title and reports
        whether the list got shorter. */
    method EliminarLibro(titulo: string) returns (msg: string)
      modifies this
      ensures libros == Remaining(old(libros), titulo)
      ensures msg == if exists b :: b in old(libros) && Lower(b.titulo) == Lower(titulo) then LibroEliminado else LibroNoEncontrado
      ensures msg == LibroNoEncontrado ==> libros == old(libros)
      ensures ContarLibros() == old(ContarLibros()) - |old(BuscarLibro(titulo))|
      ensures BuscarLibro(titulo) == []
      ensures old(Valid()) ==> Valid()
    {
      var originalCount := |libros|;
      RemovalLength(libros, titulo);
      NothingFoundAfterRemoval(libros, titulo);
      libros := Remaining(libros, titulo);
      msg := if |libros| < originalCount then LibroEliminado else LibroNoEncontrado;
    }

    /** `contar_libros`: the number of records held. */
    function ContarLibros(): (n: nat)
      reads this
      ensures n == |libros|
    {
      |libros|
    }
  }

  /** Searching by title ignores case: two queries that differ only in the case of
      their letters find the same records in the same order. */
  lemma BuscarLibroIgnoresCase(lib: Libreria, titulo1: string, titulo2: string)
    requires CaseVariants(titulo1, titulo2)
    ensures lib.BuscarLibro(titulo1) == lib.BuscarLibro(titulo2)
  {
    LowerSame(titulo1, titulo2);
    FilterAgree(lib.libros, TitleIs(titulo1), TitleIs(titulo2));
  }

  /** Searching by author ignores case: two queries that differ only in the case of
      their letters find the same records in the same order. */
  lemma BuscarPorAutorIgnoresCase(lib: Libreria, autor1: string, autor2: string)
    requires CaseVariants(autor1, autor2)
    ensures lib.BuscarPorAutor(autor1) == lib.BuscarPorAutor(autor2)
  {
    LowerSame(autor1, autor2);
    FilterAgree(lib.libros, AuthorHas(autor1), AuthorHas(autor2));
  }

  /** The empty author query occurs in every author, so it finds every record. */
  lemma EmptyAuthorFindsAll(lib: Libreria)
    ensures lib.BuscarPorAutor("") == lib.libros
  {
    assert Lower("") == "";
    forall b | b in lib.libros
      ensures AuthorHas("")(b)
    {
      EmptyIsInEverything(Lower(b.autor));
    }
    FilterKeepsAll(lib.libros, AuthorHas(""));
  }

  /** A record just added is found by a search for its own title, after the records
      the same search found before it. */
  lemma AddedRecordFoundLast(lib: Libreria, before: seq<Libro>, b: Libro)
    requires lib.libros == before + [b]
    ensures lib.BuscarLibro(b.titulo) == Filter(before, TitleIs(b.titulo)) + [b]
  {
    FilterAppend(before, b, TitleIs(b.titulo));
  }

  /** Removal shortens the list by the number of records a title search finds: it
      shortens it exactly when some record matches, and otherwise keeps it as it is. */
  lemma RemovalLength(s: seq<Libro>, titulo: string)
    ensures |Remaining(s, titulo)| == |s| - |Filter(s, TitleIs(titulo))|
    ensures |Remaining(s, titulo)| < |s| <==> exists b :: b in s && Lower(b.titulo) == Lower(titulo)
    ensures |Remaining(s, titulo)| == |s| ==> Remaining(s, titulo) == s
  {
    FilterKeepsAll(s, TitleIsNot(titulo));
    FilterSplit(s, TitleIs(titulo), TitleIsNot(titulo));
  }

  /** After a removal, a search for the same title finds nothing. */
  lemma NothingFoundAfterRemoval(s: seq<Libro>, titulo: string)
    ensures Filter(Remaining(s, titulo), TitleIs(titulo)) == []
  {
    FilterSpec(Remaining(s, titulo), TitleIs(titulo));
  }

  /** Removal is idempotent: after removing `titulo` no record with that title is
      left, so removing it again finds nothing and keeps the list as it is. */
  lemma RemovalIdempotent(s: seq<Libro>, titulo: string)
    ensures !exists b :: b in Remaining(s, titulo) && Lower(b.titulo) == Lower(titulo)
    ensures Remaining(Remaining(s, titulo), titulo) == Remaining(s, titulo)
  {
    FilterKeepsAll(Remaining(s, titulo), TitleIsNot(titulo));
  }

  /** The records removed and the records kept together are the original records:
      removal loses nothing but the matching records. */
  lemma RemovalPartition(lib: Libreria, titulo: string)
    ensures multiset(lib.BuscarLibro(titulo)) + multiset(Remaining(lib.libros, titulo)) == multiset(lib.libros)
  {
    var found, kept := lib.BuscarLibro(titulo), Remaining(lib.libros, titulo);
    forall b
      ensures (multiset(found) + multiset(kept))[b] == multiset(lib.libros)[b]
    {
    }
  }
}
