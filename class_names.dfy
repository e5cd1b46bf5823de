/**
 * `classNames` of frontend/src/utils/classNames.ts: keep the truthy arguments
 * (`filter(Boolean)`) and join them with single spaces (`join(' ')`).
 */
module ClassNames {

  /** An argument: a string, or one of the falsy non-string values callers pass. */
  datatype ClassValue = Str(s: string) | False | Undefined | Null

  /** `Boolean(v)`: only a non-empty string is truthy. */
  predicate Truthy(v: ClassValue)
  {
    v.Str? && v.s != ""
  }

  /** What the filter keeps of one argument. */
  function KeptOne(v: ClassValue): seq<string>
  {
    if Truthy(v) then [v.s] else []
  }

  /** `classes.filter(Boolean)`, as the strings kept. */
  function Kept(classes: seq<ClassValue>): (r: seq<string>)
    ensures |r| <= |classes|
    ensures forall p | p in r :: p != ""
  {
    if classes == [] then [] else KeptOne(classes[0]) + Kept(classes[1..])
  }

  /** `Array.prototype.join(' ')`. */
  function Join(parts: seq<string>): string
  {
    if parts == [] then ""
    else if |parts| == 1 then parts[0]
    else parts[0] + " " + Join(parts[1..])
  }

  /** `classNames(...classes)`. */
  function ClassNames(classes: seq<ClassValue>): string
  {
    Join(Kept(classes))
  }

  /** `String.prototype.split(' ')`: the pieces between the spaces. */
  function Split(s: string): (r: seq<string>)
    ensures |r| >= 1
  {
    if s == [] then [""]
    else if s[0] == ' ' then [""] + Split(s[1..])
    else var rest := Split(s[1..]); [[s[0]] + rest[0]] + rest[1..]
  }

  /** Total length of the parts. */
  function TotalLength(parts: seq<string>): nat
  {
    if parts == [] then 0 else |parts[0]| + TotalLength(parts[1..])
  }

  /** Filtering distributes over concatenation: each argument is kept or dropped on its own. */
  lemma {:induction false} KeptAppend(a: seq<ClassValue>, b: seq<ClassValue>)
    ensures Kept(a + b) == Kept(a) + Kept(b)
  {
    if a == [] {
      assert a + b == b;
    } else {
      var ab := a + b;
      assert ab[0] == a[0] && ab[1..] == a[1..] + b;
      KeptAppend(a[1..], b);
      calc {
        Kept(ab);
        KeptOne(a[0]) + Kept(a[1..] + b);
        KeptOne(a[0]) + (Kept(a[1..]) + Kept(b));
        (KeptOne(a[0]) + Kept(a[1..])) + Kept(b);
      }
    }
  }

  /** With no arguments the result is the empty string. */
  lemma NoArguments()
    ensures ClassNames([]) == ""
  {
  }

  /** A single truthy string comes back unchanged. */
  lemma SingleTruthy(v: ClassValue)
    requires Truthy(v)
    ensures ClassNames([v]) == v.s
  {
    assert Kept([v]) == [v.s] + Kept([]);
  }

  /** A falsy argument (`false`, `undefined`, `null`, `''`) anywhere leaves no trace in the output. */
  lemma FalsyDropped(before: seq<ClassValue>, v: ClassValue, after: seq<ClassValue>)
    requires !Truthy(v)
    ensures ClassNames(before + [v] + after) == ClassNames(before + after)
  {
    KeptAppend(before + [v], after);
    KeptAppend(before, [v]);
    KeptAppend(before, after);
    assert [v][1..] == [];
    assert Kept([v]) == [];
    assert Kept(before) + Kept([v]) == Kept(before);
  }

  /** `classNames(classNames(...xs)) == classNames(...xs)`. */
  lemma Idempotent(classes: seq<ClassValue>)
    ensures ClassNames([Str(ClassNames(classes))]) == ClassNames(classes)
  {
    assert Kept([Str(ClassNames(classes))]) == (if ClassNames(classes) != "" then [ClassNames(classes)] else []) + Kept([]);
  }

  /** Joining k >= 1 parts adds k - 1 separators to their total length. */
  lemma {:induction false} JoinLength(parts: seq<string>)
    requires |parts| >= 1
    ensures |Join(parts)| == TotalLength(parts) + |parts| - 1
  {
    if |parts| > 1 {
      JoinLength(parts[1..]);
    }
  }

  /** The output's length is the kept arguments' total length plus one space between each two. */
  lemma OutputLength(classes: seq<ClassValue>)
    requires |Kept(classes)| >= 1
    ensures |ClassNames(classes)| == TotalLength(Kept(classes)) + |Kept(classes)| - 1
  {
    JoinLength(Kept(classes));
  }

  /** Joining two non-empty runs of parts puts exactly one space between them. */
  lemma {:induction false} JoinAppend(a: seq<string>, b: seq<string>)
    requires |a| >= 1 && |b| >= 1
    ensures Join(a + b) == Join(a) + " " + Join(b)
  {
    if |a| > 1 {
      assert (a + b)[1..] == a[1..] + b;
      JoinAppend(a[1..], b);
    } else {
      assert (a + b)[1..] == b;
    }
  }

  /**
   * The output of a concatenation of arguments is the output of each part,
   * separated by one space when both parts keep something: every truthy
   * argument appears once, as written, in its original position.
   */
  lemma ClassNamesAppend(xs: seq<ClassValue>, ys: seq<ClassValue>)
    requires |Kept(xs)| >= 1 && |Kept(ys)| >= 1
    ensures ClassNames(xs + ys) == ClassNames(xs) + " " + ClassNames(ys)
  {
    KeptAppend(xs, ys);
    JoinAppend(Kept(xs), Kept(ys));
  }

  /** The fixed part of the breed-list button's classes. */
  const PillBase := "group w-full text-left px-3 py-2 rounded-xl border transition hover:border-indigo-300 focus:outline-none focus:ring-2 focus:ring-indigo-500/50"

  /**
   * The breed-list button's classes: the fixed string and the one `active`
   * chooses, joined by one space, the spaces inside each kept as written.
   */
  lemma BreedPillClasses(active: bool)
    ensures ClassNames([Str(PillBase), Str(if active then "bg-indigo-50 border-indigo-300" else "bg-white border-gray-200")])
      == PillBase + " " + (if active then "bg-indigo-50 border-indigo-300" else "bg-white border-gray-200")
  {
    var chosen := if active then "bg-indigo-50 border-indigo-300" else "bg-white border-gray-200";
    assert [Str(PillBase), Str(chosen)] == [Str(PillBase)] + [Str(chosen)];
    SingleTruthy(Str(PillBase));
    SingleTruthy(Str(chosen));
    assert Kept([Str(PillBase)]) == [PillBase] + Kept([]);
    assert Kept([Str(chosen)]) == [chosen] + Kept([]);
    ClassNamesAppend([Str(PillBase)], [Str(chosen)]);
  }

  /** A piece without spaces splits to itself. */
  lemma {:induction false} SplitPlain(p: string)
    requires ' ' !in p
    ensures Split(p) == [p]
  {
    if p != [] {
      SplitPlain(p[1..]);
      assert [p[0]] + p[1..] == p;
    }
  }

  /** A piece without spaces followed by a space splits off as the first piece. */
  lemma {:induction false} SplitFirst(p: string, t: string)
    requires ' ' !in p
    ensures Split(p + " " + t) == [p] + Split(t)
  {
    if p == [] {
      assert p + " " + t == [' '] + t;
    } else {
      assert (p + " " + t)[1..] == p[1..] + " " + t;
      SplitFirst(p[1..], t);
      assert [p[0]] + p[1..] == p;
    }
  }

  /** Splitting on spaces undoes joining with spaces when no part holds a space. */
  lemma {:induction false} SplitJoin(parts: seq<string>)
    requires |parts| >= 1
    requires forall p | p in parts :: ' ' !in p
    ensures Split(Join(parts)) == parts
  {
    if |parts| == 1 {
      SplitPlain(parts[0]);
    } else {
      SplitFirst(parts[0], Join(parts[1..]));
      SplitJoin(parts[1..]);
    }
  }

  /**
   * The output lists the truthy arguments in their original order, separated
   * by single spaces: splitting it on spaces gives them back.
   */
  lemma ClassNamesSplit(classes: seq<ClassValue>)
    requires |Kept(classes)| >= 1
    requires forall p | p in Kept(classes) :: ' ' !in p
    ensures Split(ClassNames(classes)) == Kept(classes)
  {
    SplitJoin(Kept(classes));
  }

  /** `classNames('valid', '', null, undefined, false, 'another-valid')` is `'valid another-valid'`. */
  lemma FiltersFalsyValues()
    ensures ClassNames([Str("valid"), Str(""), Null, Undefined, False, Str("another-valid")]) == "valid another-valid"
  {
  }
}
