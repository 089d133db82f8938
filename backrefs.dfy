/**
 * The backrefs facades `bre` (over Python's `re`) and `bregex` (over the
 * third-party `regex` module): a dispatch and validation layer that
 * translates the extended search syntax before handing a pattern to the
 * host engine, wraps compiled patterns in an immutable `Bre`/`Bregex`
 * object, binds replacement templates to the pattern they were compiled
 * for, and memoises both translations in two least-recently-used caches of
 * 500 entries.
 *
 * The search translator and the replace parser (`_bre_parse`,
 * `_bregex_parse`), Python's `hash` and the template expansion are
 * parameters, collected in `Host`; the host engines' matching is not
 * modelled. Flag words are modelled as the set of flags they hold.
 */
module Backrefs {
  import opened Wrappers
  import opened JsString

  /** Which facade: `bre` over `re`, or `bregex` over `regex`. */
  datatype Backend = Re | Regex

  /** The flags the facades look at; every other bit is `OtherFlag`. */
  datatype Flag = Ascii | Locale | Unicode | Verbose | Debug | Version0 | Version1 | OtherFlag(bit: nat)

  /** A flag word, as the set of flags set in it; `0` is the empty set. */
  type Flags = set<Flag>

  /** The `regex` syntax version the translator is told about; `NoVersion` is the `0` of bregex.py. */
  datatype Version = V0 | V1 | NoVersion

  /** What the search translator is told besides the pattern. */
  datatype Mode = ReMode(verbose: bool, unicode: Option<bool>) | RegexMode(verbose: bool, version: Version)

  /** A `str` or `bytes` pattern or template; `type(pattern)` is part of every cache key. */
  datatype Source = Source(text: String, isBytes: bool)

  /** A pattern compiled by a host engine: its source and its flags. */
  datatype Compiled = Compiled(backend: Backend, source: Source, flags: Flags)

  /** A `Bre` or `Bregex` object: `_pattern`, `auto_compile` and the `_hash` fixed at construction. */
  datatype Wrapper = Wrapper(backend: Backend, pattern: Compiled, autoCompile: bool, hash: int)

  /** What a caller may pass where a pattern is expected; `POther` is any other object, `None` included. */
  datatype PatternArg = PText(src: Source) | PWrapper(w: Wrapper) | PCompiled(c: Compiled) | POther(id: nat)

  /**
   * A `ReplaceTemplate`: whether it is a format template, the hash of the
   * pattern it was compiled for, and the replace parser's result.
   */
  datatype Template = Template(useFormat: bool, patternHash: int, parsed: nat)

  /** What a caller may pass as a replacement: a template string, a compiled template, or a callable. */
  datatype ReplArg = RText(src: Source) | RTemplate(t: Template) | RCallable(id: nat)

  /** A match object; only its pattern `m.re` is looked at. */
  datatype MatchObj = MatchObj(re: Compiled, id: nat)

  /** What `_apply_search_backrefs` gives the host: a translated pattern, or a compiled one as it was. */
  datatype Searchable = Translated(src: Source) | Ready(c: Compiled)

  /**
   * The parts outside the facades: the search translator
   * (`_SearchParser(pattern, verbose, mode).parse()`), the replace parser's
   * result, `hash` of a compiled pattern, `hash((type(self), type(pattern),
   * pattern, auto_compile))` of a wrapper, and `ReplaceTemplate.expand`.
   */
  datatype Host = Host(translate: (Source, Mode) -> Source,
                       parseReplace: (Compiled, Source, bool) -> nat,
                       patternHash: Compiled -> int,
                       wrapperHash: (Backend, Compiled, bool) -> int,
                       expand: (Template, MatchObj) -> String)

  datatype PyError = ValueError | TypeError | AttributeError

  /** The module functions that take a pattern and a string. */
  datatype SearchKind = SearchFn | MatchFn | FullMatchFn | SplitFn | SplitIterFn | FindAllFn | FindIterFn

  /** `sub`, `subf`, `subn` and `subfn`. */
  datatype SubKind = PlainSub | FormatSub | PlainSubn | FormatSubn

  /** The host function a substitution is finally handed to. */
  datatype HostFn = CallSub | CallSubf | CallSubn | CallSubfn

  /**
   * The arguments a substitution hands the host: the function, the compiled
   * pattern, the replacement, and the positional arguments after the string
   * and the `flags` keyword, both forwarded as the caller gave them.
   */
  datatype HostSubCall = HostSubCall(fn: HostFn, pattern: Compiled, repl: ReplArg, args: seq<Flags>, kwFlags: Option<Flags>)

  /** The `FORMAT` replace flag. */
  const Format: nat := 1

  /** `_MAXCACHE`: the size of each cache. */
  const MaxCache: nat := 500

  // ----------------------------------------------------------------------
  // Least-recently-used memo tables (`functools.lru_cache`)
  // ----------------------------------------------------------------------

  /** No key is cached twice. */
  predicate KeysDistinct<K(==), V>(es: seq<(K, V)>) {
    forall i, j :: 0 <= i < j < |es| ==> es[i].0 != es[j].0
  }

  /** The position of key `k`, or `|es|` when it is not cached. */
  function KeyIndex<K(==), V>(es: seq<(K, V)>, k: K): (i: nat)
    ensures i <= |es|
    ensures i < |es| ==> es[i].0 == k
    ensures forall j :: 0 <= j < i ==> es[j].0 != k
  {
    if es == [] then 0
    else if es[0].0 == k then 0
    else 1 + KeyIndex(es[1..], k)
  }

  /**
   * The entries after a call with key `k` whose value is `v`, least
   * recent first: a hit moves the entry to the back; a miss appends it,
   * first dropping the least recent entry when the table is full.
   */
  function Touch<K(==), V>(es: seq<(K, V)>, k: K, v: V, maxSize: nat): seq<(K, V)> {
    var i := KeyIndex(es, k);
    if i < |es| then es[..i] + es[i + 1..] + [(k, v)]
    else if |es| >= maxSize && es != [] then es[1..] + [(k, v)]
    else es + [(k, v)]
  }

  /** Every cached value is what the cached function gives for its key. */
  ghost predicate Memoises<K, V>(es: seq<(K, V)>, compute: K -> V) {
    forall i :: 0 <= i < |es| ==> es[i].1 == compute(es[i].0)
  }

  /** Appending the entry for a key none of `rest` holds keeps a faithful table free of duplicates. */
  lemma AppendEntry<K, V>(es: seq<(K, V)>, rest: seq<(K, V)>, k: K, compute: K -> V)
    requires Memoises(es, compute) && KeysDistinct(rest)
    requires forall a :: 0 <= a < |rest| ==> rest[a] in es && rest[a].0 != k
    ensures KeysDistinct(rest + [(k, compute(k))]) && Memoises(rest + [(k, compute(k))], compute)
  {
    var t := rest + [(k, compute(k))];
    forall a | 0 <= a < |t|
      ensures t[a].1 == compute(t[a].0)
    {
      if a < |rest| {
        assert t[a] == rest[a];
      }
    }
  }

  /** On a hit, the other entries keep their order and none of them holds the key. */
  lemma HitRest<K, V>(es: seq<(K, V)>, i: nat, k: K)
    requires KeysDistinct(es) && i < |es| && es[i].0 == k
    ensures var rest := es[..i] + es[i + 1..];
      KeysDistinct(rest) && forall a :: 0 <= a < |rest| ==> rest[a] in es && rest[a].0 != k
  {
    var rest := es[..i] + es[i + 1..];
    forall a | 0 <= a < |rest|
      ensures rest[a] == es[if a < i then a else a + 1]
    {
    }
  }

  /** On a miss, dropping the least recent entry keeps the others free of duplicates. */
  lemma MissRest<K, V>(es: seq<(K, V)>, k: K)
    requires KeysDistinct(es) && es != [] && forall j :: 0 <= j < |es| ==> es[j].0 != k
    ensures KeysDistinct(es[1..]) && forall a :: 0 <= a < |es[1..]| ==> es[1..][a] in es && es[1..][a].0 != k
  {
    forall a | 0 <= a < |es[1..]|
      ensures es[1..][a] == es[a + 1]
    {
    }
  }

  /** A call keeps the table within its size, free of duplicate keys and faithful to the function. */
  lemma TouchKeepsTable<K, V>(es: seq<(K, V)>, k: K, compute: K -> V, maxSize: nat)
    requires 0 < maxSize && |es| <= maxSize && KeysDistinct(es) && Memoises(es, compute)
    ensures var t := Touch(es, k, compute(k), maxSize);
      |t| <= maxSize && KeysDistinct(t) && Memoises(t, compute)
  {
    var i := KeyIndex(es, k);
    if i < |es| {
      HitRest(es, i, k);
      AppendEntry(es, es[..i] + es[i + 1..], k, compute);
    } else if |es| >= maxSize && es != [] {
      MissRest(es, k);
      AppendEntry(es, es[1..], k, compute);
    } else {
      AppendEntry(es, es, k, compute);
    }
  }

  /**
   * After a call its key is the most recent entry; a hit evicts nothing,
   * and a miss evicts at most the least recent entry, only when the
   * table was full.
   */
  lemma TouchRecency<K, V>(es: seq<(K, V)>, k: K, v: V, maxSize: nat)
    ensures var t := Touch(es, k, v, maxSize); t != [] && t[|t| - 1] == (k, v)
    ensures forall j :: 0 < j < |es| ==> es[j] in Touch(es, k, v, maxSize) || es[j].0 == k
    ensures |es| < maxSize || KeyIndex(es, k) < |es| ==> forall j :: 0 <= j < |es| ==> es[j] in Touch(es, k, v, maxSize) || es[j].0 == k
  {
    var i := KeyIndex(es, k);
    var t := Touch(es, k, v, maxSize);
    forall j | 0 <= j < |es| && es[j].0 != k && (j > 0 || |es| < maxSize || i < |es|)
      ensures es[j] in t
    {
      if i < |es| {
        if j < i {
          assert t[j] == es[j];
        } else {
          assert j != i;
          assert t[j - 1] == es[j];
        }
      } else if |es| >= maxSize && es != [] {
        assert t[j - 1] == es[j];
      } else {
        assert t[j] == es[j];
      }
    }
  }

  /** A `functools.lru_cache` around the function `compute`. */
  class LruCache<K(==), V> {
    /** The cached calls, least recently used first. */
    var entries: seq<(K, V)>
    const maxSize: nat
    const compute: K -> V

    ghost predicate Valid()
      reads this
    {
      0 < maxSize && |entries| <= maxSize && KeysDistinct(entries) && Memoises(entries, compute)
    }

    constructor (maxSize: nat, compute: K -> V)
      requires 0 < maxSize
      ensures Valid() && entries == [] && this.maxSize == maxSize && this.compute == compute
    {
      entries := [];
      this.maxSize := maxSize;
      this.compute := compute;
    }

    /** A call through the cache: the cached value on a hit, a fresh one otherwise. */
    method Call(k: K) returns (v: V)
      requires Valid()
      modifies this
      ensures Valid() && v == compute(k)
      ensures entries == Touch(old(entries), k, v, maxSize)
    {
      TouchKeepsTable(entries, k, compute, maxSize);
      var i := KeyIndex(entries, k);
      if i < |entries| {
        v := entries[i].1;
      } else {
        v := compute(k);
      }
      entries := Touch(entries, k, v, maxSize);
    }

    /** `cache_clear`. */
    method Clear()
      requires Valid()
      modifies this
      ensures Valid() && entries == []
    {
      entries := [];
    }
  }

  // ----------------------------------------------------------------------
  // Search patterns
  // ----------------------------------------------------------------------

  /**
   * The translator's mode: verbose from the `VERBOSE` flag, then for `re`
   * the unicode setting (`False` under `ASCII` or `LOCALE`, else `True`
   * under `UNICODE`, else unset), for `regex` the syntax version (`V0`
   * first, then `V1`).
   */
  function SearchMode(backend: Backend, flags: Flags): Mode {
    match backend
    case Re =>
      ReMode(Verbose in flags,
             if Ascii in flags || Locale in flags then Some(false) else if Unicode in flags then Some(true) else None)
    case Regex =>
      RegexMode(Verbose in flags, if Version0 in flags then V0 else if Version1 in flags then V1 else NoVersion)
  }

  /** `ASCII` or `LOCALE` overrides `UNICODE`; `UNICODE` alone selects unicode mode; neither leaves it unset. */
  lemma UnicodeModePrecedence(flags: Flags)
    ensures Ascii in flags || Locale in flags ==> SearchMode(Re, flags).unicode == Some(false)
    ensures Ascii !in flags && Locale !in flags ==> SearchMode(Re, flags).unicode == (if Unicode in flags then Some(true) else None)
    ensures SearchMode(Re, flags).verbose <==> Verbose in flags
  { }

  /** With both version flags set, `V0` wins. */
  lemma VersionPrecedence(flags: Flags)
    ensures Version0 in flags ==> SearchMode(Regex, flags).version == V0
    ensures Version0 !in flags ==> SearchMode(Regex, flags).version == (if Version1 in flags then V1 else NoVersion)
    ensures SearchMode(Regex, flags).verbose <==> Verbose in flags
  { }

  /** Flags the mode does not look at do not change it, so they do not split the cache. */
  lemma ModeIgnoresOtherFlags(backend: Backend, flags: Flags, extra: Flags)
    requires forall f :: f in extra ==> f.OtherFlag? || f == Debug
    ensures SearchMode(backend, flags + extra) == SearchMode(backend, flags)
  {
    assert Verbose in flags + extra <==> Verbose in flags;
    assert Ascii in flags + extra <==> Ascii in flags;
    assert Locale in flags + extra <==> Locale in flags;
    assert Unicode in flags + extra <==> Unicode in flags;
    assert Version0 in flags + extra <==> Version0 in flags;
    assert Version1 in flags + extra <==> Version1 in flags;
  }

  /** A compiled pattern, or a wrapper, of this facade's own engine. */
  predicate OwnCompiled(backend: Backend, p: PatternArg) {
    (p.PWrapper? && p.w.backend == backend) || (p.PCompiled? && p.c.backend == backend)
  }

  /**
   * `_apply_search_backrefs`: a text pattern is translated; a wrapper
   * gives up its compiled pattern and a compiled pattern passes as it is,
   * both only without flags; anything else is a `TypeError`.
   */
  function Translation(backend: Backend, host: Host, p: PatternArg, flags: Flags): (r: Result<Searchable, PyError>)
    ensures r.Ok? <==> p.PText? || (OwnCompiled(backend, p) && flags == {})
    ensures r == Err(TypeError) <==> !p.PText? && !OwnCompiled(backend, p)
    ensures r.Ok? && p.PWrapper? ==> r.value == Ready(p.w.pattern)
    ensures r.Ok? && p.PCompiled? ==> r.value == Ready(p.c)
  {
    match p
    case PText(src) => Ok(Translated(host.translate(src, SearchMode(backend, flags))))
    case PWrapper(w) => if w.backend != backend then Err(TypeError) else if flags != {} then Err(ValueError) else Ok(Ready(w.pattern))
    case PCompiled(c) => if c.backend != backend then Err(TypeError) else if flags != {} then Err(ValueError) else Ok(Ready(c))
    case POther(_) => Err(TypeError)
  }

  /** The host's `compile(pattern, flags)`: a compiled pattern, given without flags, is returned as it is. */
  function HostCompile(backend: Backend, s: Searchable, flags: Flags): Compiled {
    match s
    case Translated(src) => Compiled(backend, src, flags)
    case Ready(c) => c
  }

  /** `compile_search`: translate, then compile with the caller's flags. */
  function SearchPattern(backend: Backend, host: Host, p: PatternArg, flags: Flags): (r: Result<Compiled, PyError>)
    ensures r.Ok? <==> Translation(backend, host, p, flags).Ok?
    ensures r.Ok? && p.PText? ==> r.value == Compiled(backend, host.translate(p.src, SearchMode(backend, flags)), flags)
    ensures r.Ok? && p.PCompiled? ==> r.value == p.c
  {
    var s := Translation(backend, host, p, flags);
    if s.Err? then Err(s.error) else Ok(HostCompile(backend, s.value, flags))
  }

  // ----------------------------------------------------------------------
  // The wrapper objects
  // ----------------------------------------------------------------------

  /** `Bre(pattern, auto_compile)` / `Bregex(...)`: the hash is computed once, here. */
  function MakeWrapper(backend: Backend, host: Host, c: Compiled, autoCompile: bool): Wrapper {
    Wrapper(backend, c, autoCompile, host.wrapperHash(backend, c, autoCompile))
  }

  /** A wrapper as its constructor leaves it. */
  predicate Constructed(host: Host, w: Wrapper) {
    w.hash == host.wrapperHash(w.backend, w.pattern, w.autoCompile)
  }

  /** `__eq__`: the other object is a wrapper of the same class with equal `_pattern` and `auto_compile`. */
  predicate Eq(w: Wrapper, other: PatternArg) {
    other.PWrapper? && other.w.backend == w.backend && w.pattern == other.w.pattern && w.autoCompile == other.w.autoCompile
  }

  /** `__ne__`, written out separately in the source. */
  predicate Ne(w: Wrapper, other: PatternArg) {
    !(other.PWrapper? && other.w.backend == w.backend) || w.pattern != other.w.pattern || w.autoCompile != other.w.autoCompile
  }

  /** `__ne__` is exactly the negation of `__eq__`. */
  lemma NeIsNotEq(w: Wrapper, other: PatternArg)
    ensures Ne(w, other) <==> !Eq(w, other)
  { }

  /** `__eq__` is an equivalence on wrappers, and never holds for another kind of object. */
  lemma EqIsEquivalence(u: Wrapper, v: Wrapper, w: Wrapper, other: PatternArg)
    ensures Eq(u, PWrapper(u))
    ensures Eq(u, PWrapper(v)) ==> Eq(v, PWrapper(u))
    ensures Eq(u, PWrapper(v)) && Eq(v, PWrapper(w)) ==> Eq(u, PWrapper(w))
    ensures !other.PWrapper? ==> !Eq(u, other)
  { }

  /**
   * Equal constructed wrappers are the same value, so they have the same
   * `__hash__`, as Python requires of equal objects.
   */
  lemma EqualWrappersHashAlike(host: Host, u: Wrapper, v: Wrapper)
    requires Constructed(host, u) && Constructed(host, v) && Eq(u, PWrapper(v))
    ensures u == v && u.hash == v.hash
  { }

  /** `_pickle`: the class and its constructor arguments `(_pattern, auto_compile)`. */
  function Pickle(w: Wrapper): (Backend, Compiled, bool) {
    (w.backend, w.pattern, w.autoCompile)
  }

  /** Unpickling calls the constructor on the pickled arguments. */
  function Unpickle(host: Host, state: (Backend, Compiled, bool)): Wrapper {
    MakeWrapper(state.0, host, state.1, state.2)
  }

  /** Pickling round-trips every constructed wrapper, and gives back an equal one in any case. */
  lemma PickleRoundTrip(host: Host, w: Wrapper)
    ensures Eq(w, PWrapper(Unpickle(host, Pickle(w))))
    ensures Constructed(host, w) ==> Unpickle(host, Pickle(w)) == w
    ensures Constructed(host, Unpickle(host, Pickle(w)))
  { }

  /**
   * The module's `compile`: a wrapper of this facade is returned as it is,
   * provided neither `auto_compile` nor flags are given; anything else is
   * compiled and wrapped, `auto_compile` defaulting to true.
   */
  function Wrapped(backend: Backend, host: Host, p: PatternArg, flags: Flags, autoCompile: Option<bool>): (r: Result<Wrapper, PyError>)
    ensures p.PWrapper? && p.w.backend == backend ==>
      (r.Ok? <==> autoCompile.None? && flags == {}) && (r.Ok? ==> r.value == p.w) && (r.Err? ==> r.error == ValueError)
    ensures !(p.PWrapper? && p.w.backend == backend) ==>
      (r.Ok? <==> SearchPattern(backend, host, p, flags).Ok?)
      && (r.Ok? ==> r.value.backend == backend && r.value.autoCompile == (autoCompile != Some(false))
                    && Ok(r.value.pattern) == SearchPattern(backend, host, p, flags) && Constructed(host, r.value))
  {
    if p.PWrapper? && p.w.backend == backend then
      if autoCompile.Some? then Err(ValueError)
      else if flags != {} then Err(ValueError)
      else Ok(p.w)
    else
      var auto := if autoCompile.None? then true else autoCompile.value;
      var c := SearchPattern(backend, host, p, flags);
      if c.Err? then Err(c.error) else Ok(MakeWrapper(backend, host, c.value, auto))
  }

  /** Compiling the result of `compile` again, without arguments, gives the same object. */
  lemma CompileIdempotent(backend: Backend, host: Host, p: PatternArg, flags: Flags, autoCompile: Option<bool>)
    requires Wrapped(backend, host, p, flags, autoCompile).Ok?
    ensures Wrapped(backend, host, PWrapper(Wrapped(backend, host, p, flags, autoCompile).value), {}, None)
         == Wrapped(backend, host, p, flags, autoCompile)
  { }

  /** A text pattern is translated in the mode its flags select and compiled with those same flags. */
  lemma CompileText(backend: Backend, host: Host, src: Source, flags: Flags, autoCompile: Option<bool>)
    ensures Wrapped(backend, host, PText(src), flags, autoCompile)
         == Ok(MakeWrapper(backend, host, Compiled(backend, host.translate(src, SearchMode(backend, flags)), flags),
                          autoCompile != Some(false)))
  { }

  // ----------------------------------------------------------------------
  // Replace templates
  // ----------------------------------------------------------------------

  /** The replace parser's template for `repl` against pattern `c`, bound to `hash(c)`. */
  function ParseReplace(host: Host, c: Compiled, repl: Source, useFormat: bool): Template {
    Template(useFormat, host.patternHash(c), host.parseReplace(c, repl, useFormat))
  }

  /** Whether a replace flag word has the `FORMAT` bit. */
  predicate HasFormat(flags: nat) {
    flags % 2 == Format
  }

  /**
   * `compile_replace`: the pattern must be a compiled pattern of this
   * engine; a template string is parsed; a compiled template is accepted
   * only without flags and only for a pattern of the hash it was
   * compiled for; anything else is a `TypeError`.
   */
  function ReplaceFor(backend: Backend, host: Host, p: PatternArg, repl: ReplArg, flags: nat): (r: Result<Template, PyError>)
    ensures r == Err(TypeError) <==> !(p.PCompiled? && p.c.backend == backend) || repl.RCallable?
    ensures r.Ok? && repl.RText? ==> r.value.useFormat == HasFormat(flags) && r.value.patternHash == host.patternHash(p.c)
    ensures repl.RTemplate? && p.PCompiled? && p.c.backend == backend ==>
      (r.Ok? <==> flags == 0 && repl.t.patternHash == host.patternHash(p.c)) && (r.Ok? ==> r.value == repl.t)
  {
    if !(p.PCompiled? && p.c.backend == backend) then Err(TypeError)
    else
      match repl
      case RText(src) => Ok(ParseReplace(host, p.c, src, HasFormat(flags)))
      case RTemplate(t) =>
        if flags != 0 then Err(ValueError)
        else if t.patternHash != host.patternHash(p.c) then Err(ValueError)
        else Ok(t)
      case RCallable(_) => Err(TypeError)
  }

  /** A template compiled for a pattern is accepted again for that pattern, as it is. */
  lemma ReplaceForIdempotent(backend: Backend, host: Host, c: Compiled, src: Source, flags: nat)
    requires c.backend == backend
    ensures var r := ReplaceFor(backend, host, PCompiled(c), RText(src), flags);
      r.Ok? && ReplaceFor(backend, host, PCompiled(c), RTemplate(r.value), 0) == r
  { }

  /** A template compiled for one pattern is refused for a pattern of another hash. */
  lemma ReplaceForOtherPattern(backend: Backend, host: Host, c: Compiled, d: Compiled, src: Source, flags: nat)
    requires c.backend == backend && d.backend == backend && host.patternHash(c) != host.patternHash(d)
    ensures ReplaceFor(backend, host, PCompiled(d), RTemplate(ParseReplace(host, c, src, HasFormat(flags))), 0) == Err(ValueError)
  { }

  /**
   * `_assert_expandable`: a compiled template must be of the requested
   * format mode; anything but a template or a template string is a
   * `TypeError`.
   */
  function AssertExpandable(repl: ReplArg, useFormat: bool): (r: Result<(), PyError>)
    ensures r.Err? <==> repl.RCallable? || (repl.RTemplate? && repl.t.useFormat != useFormat)
    ensures r == Err(TypeError) <==> repl.RCallable?
  {
    match repl
    case RTemplate(t) => if t.useFormat != useFormat then Err(ValueError) else Ok(())
    case RText(_) => Ok(())
    case RCallable(_) => Err(TypeError)
  }

  /**
   * `_apply_replace_backrefs`: no match is a `ValueError`; a template
   * expands against the match; a template string is first parsed against
   * the match's pattern; anything else gives `None`.
   */
  function ApplyReplaceBackrefs(host: Host, m: Option<MatchObj>, repl: ReplArg, flags: nat): (r: Result<Option<String>, PyError>)
    ensures r.Err? <==> m.None?
    ensures r.Err? ==> r.error == ValueError
    ensures r.Ok? ==> (r.value.Some? <==> !repl.RCallable?)
    ensures m.Some? && repl.RTemplate? ==> r == Ok(Some(host.expand(repl.t, m.value)))
  {
    if m.None? then Err(ValueError)
    else
      match repl
      case RTemplate(t) => Ok(Some(host.expand(t, m.value)))
      case RText(src) => Ok(Some(host.expand(ParseReplace(host, m.value.re, src, HasFormat(flags)), m.value)))
      case RCallable(_) => Ok(None)
  }

  /** `expand(m, repl)`: check the replacement first, then expand. */
  function Expand(host: Host, m: Option<MatchObj>, repl: ReplArg): (r: Result<Option<String>, PyError>)
    ensures r.Ok? ==> r.value.Some?
    ensures r == Err(TypeError) <==> repl.RCallable?
    ensures repl.RTemplate? && repl.t.useFormat ==> r == Err(ValueError)
    ensures repl.RText? ==> (r.Ok? <==> m.Some?)
  {
    var ok := AssertExpandable(repl, false);
    if ok.Err? then Err(ok.error) else ApplyReplaceBackrefs(host, m, repl, 0)
  }

  /** `expandf(m, format)`: the same for format templates. */
  function ExpandFormat(host: Host, m: Option<MatchObj>, repl: ReplArg): (r: Result<Option<String>, PyError>)
    ensures r.Ok? ==> r.value.Some?
    ensures r == Err(TypeError) <==> repl.RCallable?
    ensures repl.RTemplate? && !repl.t.useFormat ==> r == Err(ValueError)
    ensures repl.RText? ==> (r.Ok? <==> m.Some?)
  {
    var ok := AssertExpandable(repl, true);
    if ok.Err? then Err(ok.error) else ApplyReplaceBackrefs(host, m, repl, Format)
  }

  /**
   * Expanding a template string gives what expanding the template it
   * compiles to, against the match's own pattern, gives.
   */
  lemma ExpandTextAsCompiled(host: Host, m: MatchObj, src: Source)
    ensures Expand(host, Some(m), RText(src)) == Expand(host, Some(m), RTemplate(ParseReplace(host, m.re, src, false)))
    ensures ExpandFormat(host, Some(m), RText(src)) == ExpandFormat(host, Some(m), RTemplate(ParseReplace(host, m.re, src, true)))
  {
    assert HasFormat(Format);
    assert !HasFormat(0);
  }

  /**
   * `_auto_compile` of a wrapper: a compiled template of the wrong mode is
   * a `ValueError`; a compiled template, or a string when auto-compiling,
   * goes through `compile_replace` (a string with `FORMAT` in format mode);
   * a string in format mode without auto-compiling is an `AttributeError`;
   * anything else is returned as it is.
   */
  function AutoCompiled(host: Host, w: Wrapper, template: ReplArg, useFormat: bool): (r: Result<ReplArg, PyError>)
    ensures template.RTemplate? && template.t.useFormat != useFormat ==> r == Err(ValueError)
    ensures template.RText? && !w.autoCompile ==> r == (if useFormat then Err(AttributeError) else Ok(template))
    ensures template.RCallable? ==> r == Ok(template)
    ensures r.Ok? && r.value.RTemplate? ==> r.value.t.useFormat == useFormat
    ensures r.Ok? && template.RText? && w.autoCompile ==> r.value.RTemplate? && r.value.t.patternHash == host.patternHash(w.pattern)
  {
    var isReplace := template.RTemplate?;
    var isString := template.RText?;
    if isReplace && useFormat != template.t.useFormat then Err(ValueError)
    else if isReplace || (isString && w.autoCompile) then
      var t := ReplaceFor(w.backend, host, PCompiled(w.pattern), template, if useFormat && !isReplace then Format else 0);
      if t.Err? then Err(t.error) else Ok(RTemplate(t.value))
    else if isString && useFormat then Err(AttributeError)
    else Ok(template)
  }

  /** A template the wrapper itself compiled is handed back unchanged. */
  lemma AutoCompileKeepsOwnTemplate(host: Host, w: Wrapper, src: Source, useFormat: bool)
    requires w.pattern.backend == w.backend
    ensures AutoCompiled(host, w, RTemplate(ParseReplace(host, w.pattern, src, useFormat)), useFormat)
         == Ok(RTemplate(ParseReplace(host, w.pattern, src, useFormat)))
  { }

  /** `subf`/`subfn` are the format substitutions. */
  predicate IsFormat(kind: SubKind) {
    kind == FormatSub || kind == FormatSubn
  }

  /** The host function a wrapper's own `sub`-family method calls: `regex` has `subf`/`subfn`, `re` does not. */
  function WrapperHostFn(backend: Backend, kind: SubKind): HostFn {
    match kind
    case PlainSub => CallSub
    case FormatSub => if backend == Regex then CallSubf else CallSub
    case PlainSubn => CallSubn
    case FormatSubn => if backend == Regex then CallSubfn else CallSubn
  }

  /** The host function a module-level `sub`-family function calls: always `sub` or `subn`. */
  function ModuleHostFn(kind: SubKind): HostFn {
    if kind == PlainSub || kind == FormatSub then CallSub else CallSubn
  }

  /**
   * `Bre.sub`/`subf`/`subn`/`subfn`: auto-compile the replacement, then call
   * the pattern's own method with the other arguments as given. A callable
   * reaches the host as it is; a template string becomes, when the wrapper
   * auto-compiles, a template of the call's format mode bound to the
   * wrapper's pattern; a compiled template must be of that mode and bound
   * to that pattern.
   */
  function WrapperSubCall(host: Host, w: Wrapper, kind: SubKind, repl: ReplArg, args: seq<Flags>, kwFlags: Option<Flags>): (r: Result<HostSubCall, PyError>)
    ensures r.Ok? ==> r.value.pattern == w.pattern && r.value.args == args && r.value.kwFlags == kwFlags
    ensures r.Ok? ==> ((r.value.fn == CallSubn || r.value.fn == CallSubfn) <==> (kind == PlainSubn || kind == FormatSubn))
    ensures r.Ok? ==> ((r.value.fn == CallSubf || r.value.fn == CallSubfn) <==> (w.backend == Regex && IsFormat(kind)))
    ensures repl.RCallable? ==> r.Ok? && r.value.repl == repl
    ensures repl.RText? && !w.autoCompile ==>
              (r.Ok? <==> !IsFormat(kind)) && (r.Err? ==> r.error == AttributeError) && (r.Ok? ==> r.value.repl == repl)
    ensures repl.RText? && w.autoCompile ==>
              (r.Ok? <==> w.pattern.backend == w.backend)
              && (r.Ok? ==> r.value.repl == RTemplate(ParseReplace(host, w.pattern, repl.src, IsFormat(kind))))
    ensures repl.RTemplate? && repl.t.useFormat != IsFormat(kind) ==> r == Err(ValueError)
    ensures repl.RTemplate? && repl.t.useFormat == IsFormat(kind) ==>
              (r.Ok? <==> w.pattern.backend == w.backend && repl.t.patternHash == host.patternHash(w.pattern))
              && (r.Ok? ==> r.value.repl == repl)
  {
    assert HasFormat(Format) && !HasFormat(0);
    var t := AutoCompiled(host, w, repl, IsFormat(kind));
    if t.Err? then Err(t.error) else Ok(HostSubCall(WrapperHostFn(w.backend, kind), w.pattern, t.value, args, kwFlags))
  }

  /** Only `regex` wrappers hand format templates to a native `subf`/`subfn`. */
  lemma WrapperFormatSubHost(w: Wrapper)
    ensures WrapperHostFn(w.backend, FormatSub) == (if w.backend == Regex then CallSubf else CallSub)
    ensures WrapperHostFn(w.backend, FormatSubn) == (if w.backend == Regex then CallSubfn else CallSubn)
    ensures ModuleHostFn(FormatSub) == CallSub && ModuleHostFn(FormatSubn) == CallSubn
  { }

  // ----------------------------------------------------------------------
  // Module functions taking `*args, **kwargs`
  // ----------------------------------------------------------------------

  /** `args[i] if len(args) > i else kwargs.get('flags', 0)`; positional arguments are read as flag words. */
  function FlagsArgument(args: seq<Flags>, kwFlags: Option<Flags>, index: nat): Flags {
    if |args| > index then args[index] else if kwFlags.Some? then kwFlags.value else {}
  }

  /** The index the search-family functions read flags from: 3 for the `split` pair, 2 otherwise. */
  function SearchFlagsIndex(kind: SearchKind): nat {
    if kind == SplitFn || kind == SplitIterFn then 3 else 2
  }

  /** The index the `sub` family reads flags from. */
  const SubFlagsIndex: nat := 4

  /**
   * Where the host's own function takes `flags` among the arguments after
   * the string: first for `search` and the like, after `maxsplit` for
   * `split`, after `count` for `sub`.
   */
  function HostFlagsPosition(kind: SearchKind): nat {
    if kind == SplitFn || kind == SplitIterFn then 1 else 0
  }

  const SubHostFlagsPosition: nat := 1

  /** The flags `_apply_search_backrefs` sees in a search-family call, as the source reads them. */
  function TranslatorFlags(kind: SearchKind, args: seq<Flags>, kwFlags: Option<Flags>): Flags {
    FlagsArgument(args, kwFlags, SearchFlagsIndex(kind))
  }

  /** The flags the host receives positionally at its own position, as the translator should see them. */
  function IntendedTranslatorFlags(kind: SearchKind, args: seq<Flags>, kwFlags: Option<Flags>): Flags {
    FlagsArgument(args, kwFlags, HostFlagsPosition(kind))
  }

  /**
   * The flags read at index 2 (3, 4) lie past the host's own flags
   * argument: flags given positionally, and nothing after them, are not
   * seen by the translator, so a positional `VERBOSE` translates the
   * pattern as if it were not verbose.
   */
  lemma PositionalFlagsIgnored(kind: SearchKind, args: seq<Flags>, backend: Backend, host: Host, src: Source)
    requires |args| == HostFlagsPosition(kind) + 1 && args[HostFlagsPosition(kind)] == {Verbose}
    ensures TranslatorFlags(kind, args, None) == {}
    ensures Translation(backend, host, PText(src), TranslatorFlags(kind, args, None))
         == Ok(Translated(host.translate(src, SearchMode(backend, {}))))
    ensures SearchMode(backend, {}) != SearchMode(backend, args[HostFlagsPosition(kind)])
  { }

  /** Read at the host's position, the translator sees the very flags the host compiles with. */
  lemma IntendedFlagsReachTranslator(kind: SearchKind, args: seq<Flags>, kwFlags: Option<Flags>)
    ensures |args| > HostFlagsPosition(kind) ==> IntendedTranslatorFlags(kind, args, kwFlags) == args[HostFlagsPosition(kind)]
    ensures |args| <= HostFlagsPosition(kind) && kwFlags.Some? ==> IntendedTranslatorFlags(kind, args, kwFlags) == kwFlags.value
    ensures |args| <= HostFlagsPosition(kind) ==> IntendedTranslatorFlags(kind, args, kwFlags) == TranslatorFlags(kind, args, kwFlags)
  { }

  /** The `sub` family has the same gap: `args[4]` is never the host's `flags`. */
  lemma SubPositionalFlagsIgnored(args: seq<Flags>, f: Flags)
    requires |args| == SubHostFlagsPosition + 1 && args[SubHostFlagsPosition] == f
    ensures FlagsArgument(args, None, SubFlagsIndex) == {}
    ensures FlagsArgument(args, None, SubHostFlagsPosition) == f
  { }

  /** `rflags`: a format substitution compiles a template string with `FORMAT`. */
  function ReplaceFlags(kind: SubKind, repl: ReplArg): nat {
    if IsFormat(kind) && repl.RText? then Format else 0
  }

  /**
   * The replacement step of the module's `sub` family, once the pattern
   * is compiled: a template or template string goes through
   * `compile_replace`; a callable is handed on as it is.
   */
  function SubReplacement(backend: Backend, host: Host, kind: SubKind, pc: Compiled, repl: ReplArg,
                          args: seq<Flags>, kwFlags: Option<Flags>): (r: Result<HostSubCall, PyError>)
    ensures r.Ok? ==> r.value.fn == ModuleHostFn(kind) && r.value.pattern == pc
    ensures r.Ok? ==> r.value.args == args && r.value.kwFlags == kwFlags
    ensures r.Ok? && r.value.repl.RTemplate? ==> r.value.repl.t.patternHash == host.patternHash(pc)
    ensures repl.RCallable? ==> r == Ok(HostSubCall(ModuleHostFn(kind), pc, repl, args, kwFlags))
    ensures repl.RText? ==> (r.Ok? <==> pc.backend == backend)
                            && (r.Ok? ==> r.value.repl.RTemplate? && r.value.repl.t.useFormat == IsFormat(kind))
  {
    if repl.RCallable? then Ok(HostSubCall(ModuleHostFn(kind), pc, repl, args, kwFlags))
    else
      var t := ReplaceFor(backend, host, PCompiled(pc), repl, ReplaceFlags(kind, repl));
      if t.Err? then Err(t.error) else Ok(HostSubCall(ModuleHostFn(kind), pc, RTemplate(t.value), args, kwFlags))
  }

  /** The flags the `sub` family passes to `compile_search`. */
  function SubFlags(args: seq<Flags>, kwFlags: Option<Flags>): Flags {
    FlagsArgument(args, kwFlags, SubFlagsIndex)
  }

  /**
   * The module's `sub`, `subf`, `subn`, `subfn`: a compiled template of the
   * wrong format mode is refused before anything else; then the pattern
   * is compiled and the replacement prepared.
   */
  function ModuleSubCall(backend: Backend, host: Host, kind: SubKind, p: PatternArg, repl: ReplArg,
                         args: seq<Flags>, kwFlags: Option<Flags>): (r: Result<HostSubCall, PyError>)
    ensures repl.RTemplate? && repl.t.useFormat != IsFormat(kind) ==> r == Err(ValueError)
    ensures r.Ok? ==> SearchPattern(backend, host, p, SubFlags(args, kwFlags)) == Ok(r.value.pattern)
    ensures r.Ok? ==> r.value.args == args && r.value.kwFlags == kwFlags
    ensures r.Ok? && r.value.repl.RTemplate? ==> r.value.repl.t.useFormat == IsFormat(kind)
    ensures !(repl.RTemplate? && repl.t.useFormat != IsFormat(kind)) ==>
              (SearchPattern(backend, host, p, SubFlags(args, kwFlags)).Err? ==> r.Err?)
  {
    if repl.RTemplate? && repl.t.useFormat != IsFormat(kind) then Err(ValueError)
    else
      var pc := SearchPattern(backend, host, p, SubFlags(args, kwFlags));
      if pc.Err? then Err(pc.error) else SubReplacement(backend, host, kind, pc.value, repl, args, kwFlags)
  }

  /** A callable replacement reaches the host untouched; a template string is compiled in the call's format mode. */
  lemma SubReplacementModes(backend: Backend, host: Host, kind: SubKind, p: PatternArg, repl: ReplArg,
                            args: seq<Flags>, kwFlags: Option<Flags>)
    requires SearchPattern(backend, host, p, SubFlags(args, kwFlags)).Ok?
    ensures var pc := SearchPattern(backend, host, p, SubFlags(args, kwFlags)).value;
      (repl.RCallable? ==> ModuleSubCall(backend, host, kind, p, repl, args, kwFlags) == Ok(HostSubCall(ModuleHostFn(kind), pc, repl, args, kwFlags)))
      && (repl.RText? && pc.backend == backend ==>
            ModuleSubCall(backend, host, kind, p, repl, args, kwFlags)
            == Ok(HostSubCall(ModuleHostFn(kind), pc, RTemplate(ParseReplace(host, pc, repl.src, IsFormat(kind))), args, kwFlags)))
  {
    assert HasFormat(Format) && !HasFormat(0);
  }

  /** The flags the host's `sub` or `subn` compiles with: positionally after `count`, or by keyword. */
  function HostSubFlags(call: HostSubCall): Flags {
    FlagsArgument(call.args, call.kwFlags, SubHostFlagsPosition)
  }

  /**
   * The host's own check of a module-level substitution: `re.sub` and
   * `regex.sub` (and their `subn`) compile their pattern argument again,
   * and refuse non-zero flags beside a pattern that is already compiled.
   */
  function HostSubChecked(call: HostSubCall): Result<HostSubCall, PyError> {
    if HostSubFlags(call) != {} then Err(ValueError) else Ok(call)
  }

  /**
   * The module's `sub` family forwards `*args, **kwargs` to the host beside
   * the pattern it has already compiled, so any non-zero flags make the host
   * raise `ValueError`: by keyword they are first used by `compile_search`
   * and then refused; positionally they are not even seen by it. A call the
   * host accepts was, for flags given at most by keyword, compiled without
   * flags.
   */
  lemma ModuleSubFlagsRefused(backend: Backend, host: Host, kind: SubKind, p: PatternArg, repl: ReplArg,
                              args: seq<Flags>, kwFlags: Option<Flags>)
    requires ModuleSubCall(backend, host, kind, p, repl, args, kwFlags).Ok?
    ensures HostSubChecked(ModuleSubCall(backend, host, kind, p, repl, args, kwFlags).value) == Err(ValueError)
        <==> FlagsArgument(args, kwFlags, SubHostFlagsPosition) != {}
    ensures HostSubChecked(ModuleSubCall(backend, host, kind, p, repl, args, kwFlags).value).Ok? && |args| <= SubHostFlagsPosition
        ==> SubFlags(args, kwFlags) == {}
  {
    var call := ModuleSubCall(backend, host, kind, p, repl, args, kwFlags).value;
    assert call.args == args && call.kwFlags == kwFlags;
  }

  // ----------------------------------------------------------------------
  // The two caches
  // ----------------------------------------------------------------------

  /** The search cache's key: `(pattern, verbose, mode, type(pattern))`. */
  datatype SearchKey = SearchKey(pattern: Source, mode: Mode)

  /** The replace cache's key: `(pattern, repl, flags, type(repl))`. */
  datatype ReplaceKey = ReplaceKey(pattern: Compiled, repl: Source, flags: nat)

  /** `_cached_search_compile`, uncached. */
  function TranslateKey(host: Host, k: SearchKey): Source {
    host.translate(k.pattern, k.mode)
  }

  /** `_cached_replace_compile`, uncached. */
  function ParseKey(host: Host, k: ReplaceKey): Template {
    ParseReplace(host, k.pattern, k.repl, HasFormat(k.flags))
  }

  /** A facade's module state: its two caches and the calls it made to the host's own `purge`. */
  class Caches {
    const backend: Backend
    const host: Host
    const search: LruCache<SearchKey, Source>
    const replace: LruCache<ReplaceKey, Template>
    var hostPurges: nat

    ghost predicate Valid()
      reads this, search, replace
    {
      search as object != replace as object
      && search.Valid() && replace.Valid() && search.maxSize == MaxCache && replace.maxSize == MaxCache
      && (forall k :: search.compute(k) == TranslateKey(host, k))
      && (forall k :: replace.compute(k) == ParseKey(host, k))
    }

    constructor (backend: Backend, host: Host)
      ensures Valid() && this.backend == backend && this.host == host
      ensures search.entries == [] && replace.entries == [] && hostPurges == 0
      ensures fresh(search) && fresh(replace)
    {
      this.backend := backend;
      this.host := host;
      search := new LruCache(MaxCache, (k: SearchKey) => TranslateKey(host, k));
      replace := new LruCache(MaxCache, (k: ReplaceKey) => ParseKey(host, k));
      hostPurges := 0;
    }

    /** The search entries after `_apply_search_backrefs(p, flags)`: only text patterns, without `DEBUG`, use the cache. */
    ghost function SearchTouched(es: seq<(SearchKey, Source)>, p: PatternArg, flags: Flags): seq<(SearchKey, Source)> {
      if p.PText? && Debug !in flags then
        Touch(es, SearchKey(p.src, SearchMode(backend, flags)), TranslateKey(host, SearchKey(p.src, SearchMode(backend, flags))), MaxCache)
      else es
    }

    /** The replace entries after `compile_replace(p, repl, flags)`: only template strings, for a pattern without `DEBUG`. */
    ghost function ReplaceTouched(es: seq<(ReplaceKey, Template)>, p: PatternArg, repl: ReplArg, flags: nat): seq<(ReplaceKey, Template)> {
      if p.PCompiled? && p.c.backend == backend && repl.RText? && Debug !in p.c.flags then
        Touch(es, ReplaceKey(p.c, repl.src, flags), ParseKey(host, ReplaceKey(p.c, repl.src, flags)), MaxCache)
      else es
    }

    /** `_get_cache_size`: never more than `_MAXCACHE`. */
    function CacheSize(ofReplace: bool): (n: nat)
      requires Valid()
      reads this, search, replace
      ensures n <= MaxCache
    {
      if ofReplace then |replace.entries| else |search.entries|
    }

    /** `_apply_search_backrefs`, through the search cache. */
    method ApplySearchBackrefs(p: PatternArg, flags: Flags) returns (r: Result<Searchable, PyError>)
      requires Valid()
      modifies search
      ensures Valid() && r == Translation(backend, host, p, flags)
      ensures search.entries == SearchTouched(old(search.entries), p, flags)
    {
      match p {
        case PText(src) =>
          var mode := SearchMode(backend, flags);
          if Debug !in flags {
            var t := search.Call(SearchKey(src, mode));
            r := Ok(Translated(t));
          } else {
            r := Ok(Translated(host.translate(src, mode)));
          }
        case PWrapper(w) =>
          if w.backend != backend {
            r := Err(TypeError);
          } else if flags != {} {
            r := Err(ValueError);
          } else {
            r := Ok(Ready(w.pattern));
          }
        case PCompiled(c) =>
          if c.backend != backend {
            r := Err(TypeError);
          } else if flags != {} {
            r := Err(ValueError);
          } else {
            r := Ok(Ready(c));
          }
        case POther(_) =>
          r := Err(TypeError);
      }
    }

    /** `compile_search`. */
    method CompileSearch(p: PatternArg, flags: Flags) returns (r: Result<Compiled, PyError>)
      requires Valid()
      modifies search
      ensures Valid() && r == SearchPattern(backend, host, p, flags)
      ensures search.entries == SearchTouched(old(search.entries), p, flags)
    {
      var s := ApplySearchBackrefs(p, flags);
      if s.Err? {
        r := Err(s.error);
      } else {
        r := Ok(HostCompile(backend, s.value, flags));
      }
    }

    /** The module's `compile`. */
    method Compile(p: PatternArg, flags: Flags, autoCompile: Option<bool>) returns (r: Result<Wrapper, PyError>)
      requires Valid()
      modifies search
      ensures Valid() && r == Wrapped(backend, host, p, flags, autoCompile)
      ensures search.entries == if p.PWrapper? && p.w.backend == backend then old(search.entries)
                                else SearchTouched(old(search.entries), p, flags)
    {
      if p.PWrapper? && p.w.backend == backend {
        if autoCompile.Some? {
          r := Err(ValueError);
        } else if flags != {} {
          r := Err(ValueError);
        } else {
          r := Ok(p.w);
        }
        return;
      }
      var auto := if autoCompile.None? then true else autoCompile.value;
      var c := CompileSearch(p, flags);
      if c.Err? {
        r := Err(c.error);
      } else {
        r := Ok(MakeWrapper(backend, host, c.value, auto));
      }
    }

    /** `compile_replace`, through the replace cache. */
    method CompileReplace(p: PatternArg, repl: ReplArg, flags: nat) returns (r: Result<Template, PyError>)
      requires Valid()
      modifies replace
      ensures Valid() && r == ReplaceFor(backend, host, p, repl, flags)
      ensures replace.entries == ReplaceTouched(old(replace.entries), p, repl, flags)
    {
      if !(p.PCompiled? && p.c.backend == backend) {
        r := Err(TypeError);
        return;
      }
      match repl {
        case RText(src) =>
          if Debug !in p.c.flags {
            var t := replace.Call(ReplaceKey(p.c, src, flags));
            r := Ok(t);
          } else {
            r := Ok(ParseReplace(host, p.c, src, HasFormat(flags)));
          }
        case RTemplate(t) =>
          if flags != 0 {
            r := Err(ValueError);
          } else if t.patternHash != host.patternHash(p.c) {
            r := Err(ValueError);
          } else {
            r := Ok(t);
          }
        case RCallable(_) =>
          r := Err(TypeError);
      }
    }

    /** `_auto_compile` of a wrapper of this facade. */
    method AutoCompile(w: Wrapper, template: ReplArg, useFormat: bool) returns (r: Result<ReplArg, PyError>)
      requires Valid() && w.backend == backend
      modifies replace
      ensures Valid() && r == AutoCompiled(host, w, template, useFormat)
      ensures replace.entries ==
        if template.RText? && w.autoCompile then ReplaceTouched(old(replace.entries), PCompiled(w.pattern), template, if useFormat then Format else 0)
        else old(replace.entries)
    {
      var isReplace := template.RTemplate?;
      var isString := template.RText?;
      if isReplace && useFormat != template.t.useFormat {
        r := Err(ValueError);
      } else if isReplace || (isString && w.autoCompile) {
        var t := CompileReplace(PCompiled(w.pattern), template, if useFormat && !isReplace then Format else 0);
        r := if t.Err? then Err(t.error) else Ok(RTemplate(t.value));
      } else if isString && useFormat {
        r := Err(AttributeError);
      } else {
        r := Ok(template);
      }
    }

    /** A wrapper's own `compile(repl, flags)`: `compile_replace` against its pattern. */
    method WrapperCompile(w: Wrapper, repl: ReplArg, flags: nat) returns (r: Result<Template, PyError>)
      requires Valid()
      modifies replace
      ensures Valid() && r == ReplaceFor(backend, host, PCompiled(w.pattern), repl, flags)
      ensures replace.entries == ReplaceTouched(old(replace.entries), PCompiled(w.pattern), repl, flags)
    {
      r := CompileReplace(PCompiled(w.pattern), repl, flags);
    }

    /** A wrapper's own `sub`, `subf`, `subn`, `subfn`. */
    method WrapperSub(w: Wrapper, kind: SubKind, repl: ReplArg, args: seq<Flags>, kwFlags: Option<Flags>)
        returns (r: Result<HostSubCall, PyError>)
      requires Valid() && w.backend == backend
      modifies replace
      ensures Valid() && r == WrapperSubCall(host, w, kind, repl, args, kwFlags)
      ensures replace.entries ==
        if repl.RText? && w.autoCompile then ReplaceTouched(old(replace.entries), PCompiled(w.pattern), repl, if IsFormat(kind) then Format else 0)
        else old(replace.entries)
    {
      var t := AutoCompile(w, repl, IsFormat(kind));
      r := if t.Err? then Err(t.error) else Ok(HostSubCall(WrapperHostFn(w.backend, kind), w.pattern, t.value, args, kwFlags));
    }

    /** The module's `search`, `match`, `fullmatch`, `split`, `splititer`, `findall`, `finditer`: what the host is given. */
    method Search(kind: SearchKind, p: PatternArg, args: seq<Flags>, kwFlags: Option<Flags>) returns (r: Result<Searchable, PyError>)
      requires Valid()
      modifies search
      ensures Valid() && r == Translation(backend, host, p, TranslatorFlags(kind, args, kwFlags))
      ensures search.entries == SearchTouched(old(search.entries), p, TranslatorFlags(kind, args, kwFlags))
    {
      r := ApplySearchBackrefs(p, FlagsArgument(args, kwFlags, SearchFlagsIndex(kind)));
    }

    /** The replacement step of the module's `sub` family. */
    method PrepareReplacement(kind: SubKind, pc: Compiled, repl: ReplArg, args: seq<Flags>, kwFlags: Option<Flags>)
        returns (r: Result<HostSubCall, PyError>)
      requires Valid()
      modifies replace
      ensures Valid() && r == SubReplacement(backend, host, kind, pc, repl, args, kwFlags)
      ensures replace.entries == ReplaceTouched(old(replace.entries), PCompiled(pc), repl, ReplaceFlags(kind, repl))
    {
      if repl.RCallable? {
        r := Ok(HostSubCall(ModuleHostFn(kind), pc, repl, args, kwFlags));
      } else {
        var t := CompileReplace(PCompiled(pc), repl, ReplaceFlags(kind, repl));
        r := if t.Err? then Err(t.error) else Ok(HostSubCall(ModuleHostFn(kind), pc, RTemplate(t.value), args, kwFlags));
      }
    }

    /** The module's `sub`, `subf`, `subn`, `subfn`. */
    method Sub(kind: SubKind, p: PatternArg, repl: ReplArg, args: seq<Flags>, kwFlags: Option<Flags>)
        returns (r: Result<HostSubCall, PyError>)
      requires Valid()
      modifies search, replace
      ensures Valid() && r == ModuleSubCall(backend, host, kind, p, repl, args, kwFlags)
      ensures repl.RTemplate? && repl.t.useFormat != IsFormat(kind) ==>
        search.entries == old(search.entries) && replace.entries == old(replace.entries)
      ensures !(repl.RTemplate? && repl.t.useFormat != IsFormat(kind)) ==>
        search.entries == SearchTouched(old(search.entries), p, SubFlags(args, kwFlags))
        && replace.entries == if SearchPattern(backend, host, p, SubFlags(args, kwFlags)).Err? then old(replace.entries)
                              else ReplaceTouched(old(replace.entries), PCompiled(SearchPattern(backend, host, p, SubFlags(args, kwFlags)).value),
                                                  repl, ReplaceFlags(kind, repl))
    {
      if repl.RTemplate? && repl.t.useFormat != IsFormat(kind) {
        r := Err(ValueError);
        return;
      }
      var pc := CompileSearch(p, SubFlags(args, kwFlags));
      if pc.Err? {
        r := Err(pc.error);
      } else {
        r := PrepareReplacement(kind, pc.value, repl, args, kwFlags);
      }
    }

    /** `purge`: clear both caches, then the host's own. */
    method Purge()
      requires Valid()
      modifies this, search, replace
      ensures Valid() && search.entries == [] && replace.entries == [] && hostPurges == old(hostPurges) + 1
    {
      replace.Clear();
      search.Clear();
      hostPurges := hostPurges + 1;
    }
  }
}
