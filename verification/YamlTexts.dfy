/**
  What a scalar means to its author. A text is written as literal text, with every `${` escaped, and
  placeholders; reading it back puts a value in the place of each placeholder and leaves the rest.
 */
module YamlTexts {
  import opened Common
  import opened YamlScanner
  import opened YamlLayers

  /** Literal text, or literal text, a placeholder and what follows. */
  datatype Written = End(text: string) | Then(text: string, hole: Hole, rest: Written)

  function Spell(w: Written): string {
    match w
    case End(s) => Escape(s)
    case Then(s, h, rest) => Escape(s) + (Print(h) + Spell(rest))
  }

  /** The value of each placeholder in its place, or the first variable without value and fallback. */
  function Reading(w: Written, env: Env): Result<string, string> {
    match w
    case End(s) => Ok(s)
    case Then(s, h, rest) =>
      if h.name !in env && h.fallback.None? then Err(h.name)
      else
        match Reading(rest, env)
        case Err(name) => Err(name)
        case Ok(t) => Ok(s + (if h.name in env then env[h.name] else h.fallback.value) + t)
  }

  /** No `$${` anywhere. */
  predicate NoEscape(s: string) {
    forall i | 0 <= i < |s| - 2 :: !(s[i] == '$' && s[i + 1] == '$' && s[i + 2] == '{')
  }

  /**
    The grammar can spell it: NUL occurs nowhere, a fallback holds no `$${`, and no text that ends in
    `$` stands before a placeholder, which would escape it.
   */
  predicate Spellable(w: Written) {
    match w
    case End(s) => NUL !in s
    case Then(s, h, rest) =>
      && NUL !in s && (s != "" ==> s[|s| - 1] != '$')
      && WellFormed(h) && (h.fallback.Some? ==> NUL !in h.fallback.value && NoEscape(h.fallback.value))
      && Spellable(rest)
  }

  /** The variables it names have values without NUL. */
  predicate Clean(w: Written, env: Env) {
    w.Then? ==> (w.hole.name in env ==> NUL !in env[w.hole.name]) && Clean(w.rest, env)
  }

  /** One placeholder and nothing else. */
  predicate Alone(w: Written) {
    w.Then? && w.text == "" && w.rest == End("")
  }

  // ---------------------------------------------------------------- marking and scanning any text

  /** Every NUL written as the `$${` it stands for. */
  function Restore(t: string): string {
    if t == "" then "" else (if t[0] == NUL then "$${" else [t[0]]) + Restore(t[1..])
  }

  lemma EscapePrefix(t: string)
    ensures "$${" <= t <==> |t| >= 3 && t[0] == '$' && t[1] == '$' && t[2] == '{'
  {}

  lemma MatchOpens(t: string)
    ensures MatchAt(t).Some? ==> |t| >= 2 && t[0] == '$' && t[1] == '{'
  {}

  lemma NoEscapeInRest(t: string)
    requires NoEscape(t) && t != ""
    ensures NoEscape(t[1..])
  {
    assert forall i | 0 <= i < |t| - 1 :: t[1..][i] == t[i + 1];
  }

  lemma MarkCons(c: char, t: string)
    requires !("$${" <= [c] + t)
    ensures Mark([c] + t) == [c] + Mark(t)
  {
    assert ([c] + t)[1..] == t;
  }

  lemma MarkHead(s: string)
    requires s != ""
    ensures Mark(s) != "" && Mark(s)[0] == if "$${" <= s then NUL else s[0]
  {}

  lemma MarkMakesNoEscape(s: string)
    requires s != "" && !("$${" <= s)
    ensures !("$${" <= Mark(s))
  {
    var t := Mark(s);
    EscapePrefix(s);
    EscapePrefix(t);
    if |t| >= 3 {
      var u := s[1..];
      assert t == [s[0]] + Mark(u);
      MarkHead(u);
      if t[1] == '$' {
        assert Mark(u) == [u[0]] + Mark(u[1..]);
        MarkHead(u[1..]);
      }
    }
  }

  lemma {:induction false} MarkHasNoEscape(s: string)
    ensures NoEscape(Mark(s))
  {
    if s == "" {
    } else if "$${" <= s {
      MarkHasNoEscape(s[3..]);
      var t := Mark(s);
      assert t[1..] == Mark(s[3..]);
      forall i | 0 <= i < |t| - 2 ensures !(t[i] == '$' && t[i + 1] == '$' && t[i + 2] == '{') {
        if i > 0 {
          assert t[i] == t[1..][i - 1] && t[i + 1] == t[1..][i] && t[i + 2] == t[1..][i + 1];
        }
      }
    } else {
      MarkHasNoEscape(s[1..]);
      var t := Mark(s);
      assert t[1..] == Mark(s[1..]);
      forall i | 0 <= i < |t| - 2 ensures !(t[i] == '$' && t[i + 1] == '$' && t[i + 2] == '{') {
        if i > 0 {
          assert t[i] == t[1..][i - 1] && t[i + 1] == t[1..][i] && t[i + 2] == t[1..][i + 1];
        } else {
          MarkMakesNoEscape(s);
        }
      }
    }
  }

  lemma {:induction false} MarkRestores(s: string)
    requires NUL !in s
    ensures Restore(Mark(s)) == s
  {
    if s == "" {
    } else if "$${" <= s {
      MarkRestores(s[3..]);
      MarkEscape(s[3..]);
      assert s == "$${" + s[3..];
      RestoreCons(NUL, Mark(s[3..]));
    } else {
      MarkRestores(s[1..]);
      assert s == [s[0]] + s[1..];
      MarkCons(s[0], s[1..]);
      RestoreCons(s[0], Mark(s[1..]));
    }
  }

  lemma RestoreCons(c: char, t: string)
    ensures Restore([c] + t) == (if c == NUL then "$${" else [c]) + Restore(t)
  {
    assert ([c] + t)[1..] == t;
  }

  lemma {:induction false} RestoredMarks(t: string)
    requires NoEscape(t)
    ensures Mark(Restore(t)) == t
  {
    if t != "" {
      NoEscapeInRest(t);
      RestoredMarks(t[1..]);
      var s := Restore(t);
      if t[0] == NUL {
        assert s[3..] == Restore(t[1..]);
      } else {
        assert s[1..] == Restore(t[1..]);
        RestoreMakesNoEscape(t);
      }
    }
  }

  lemma RestoreMakesNoEscape(t: string)
    requires t != "" && t[0] != NUL && NoEscape(t)
    ensures !("$${" <= Restore(t))
  {
    var s := Restore(t);
    EscapePrefix(s);
    assert s == [t[0]] + Restore(t[1..]);
    RestoreHead(t[1..]);
    if |t| > 1 {
      EscapePrefix(Restore(t[1..]));
      assert t[1..][1..] == t[2..];
      RestoreHead(t[2..]);
      EscapePrefix(Restore(t[2..]));
    }
  }

  /** The first character of a restored text, and what a marked escape begins with. */
  lemma RestoreHead(t: string)
    ensures t == "" ==> Restore(t) == ""
    ensures t != "" && t[0] == NUL ==> "$${" <= Restore(t)
    ensures t != "" && t[0] != NUL ==> Restore(t) == [t[0]] + Restore(t[1..])
  {}

  /** Marking replaces exactly the occurrences of `$${`, wherever they stand. */
  lemma MarkIff(s: string, t: string)
    requires NUL !in s
    ensures t == Mark(s) <==> Restore(t) == s && NoEscape(t)
  {
    MarkRestores(s);
    MarkHasNoEscape(s);
    if Restore(t) == s && NoEscape(t) {
      RestoredMarks(t);
    }
  }

  /** Every piece is a placeholder that the grammar spells, or a character where none starts. */
  predicate LeftToRight(ps: seq<Piece>) {
    ps == [] ||
    (&& (if ps[0].Place? then WellFormed(ps[0].hole) else MatchAt(PrintAll(ps)).None?)
     && LeftToRight(ps[1..]))
  }

  /** Scanning finds exactly the placeholders that start, from left to right, outside earlier ones. */
  lemma {:induction false} ScanIff(t: string, ps: seq<Piece>)
    ensures ps == Scan(t) <==> PrintAll(ps) == t && LeftToRight(ps)
  {
    ScanRoundTrip(t);
    ScanIsLeftToRight(t);
    if PrintAll(ps) == t && LeftToRight(ps) {
      LeftToRightScans(ps);
    }
  }

  lemma {:induction false} ScanIsLeftToRight(t: string)
    ensures LeftToRight(Scan(t))
    decreases |t|
  {
    if t != "" {
      ScanRoundTrip(t);
      match MatchAt(t) {
        case Some((h, n)) =>
          MatchIsPrinted(t);
          ScanIsLeftToRight(t[n..]);
          assert Scan(t)[1..] == Scan(t[n..]);
        case None =>
          ScanIsLeftToRight(t[1..]);
          assert Scan(t)[1..] == Scan(t[1..]);
      }
    }
  }

  lemma {:induction false} LeftToRightScans(ps: seq<Piece>)
    requires LeftToRight(ps)
    ensures Scan(PrintAll(ps)) == ps
    decreases |ps|
  {
    if ps != [] {
      LeftToRightScans(ps[1..]);
      var t := PrintAll(ps);
      match ps[0] {
        case Place(h) =>
          ScanOfPrinted(h, PrintAll(ps[1..]));
        case Literal(c) =>
          assert t[1..] == PrintAll(ps[1..]);
      }
    }
  }

  lemma ScanOfPrinted(h: Hole, rest: string)
    requires WellFormed(h)
    ensures Scan(Print(h) + rest) == [Place(h)] + Scan(rest)
  {
    PrintedMatches(h, rest);
    assert (Print(h) + rest)[|Print(h)|..] == rest;
  }

  // ---------------------------------------------------------------- marking and scanning what was written

  lemma {:induction false} MarkAfterEscaped(s: string, rest: string)
    requires rest == "" || ("${" <= rest && (s != "" ==> s[|s| - 1] != '$'))
    ensures Mark(Escape(s) + rest) == Hide(s) + Mark(rest)
  {
    if s == "" {
      assert Escape(s) + rest == rest;
    } else if "${" <= s {
      MarkAfterEscaped(s[2..], rest);
      var x := Escape(s[2..]);
      EscapeOfOpening(s);
      MarkEscape(x + rest);
      Regroup("$${", x, rest);
      Regroup([NUL], Hide(s[2..]), Mark(rest));
    } else {
      MarkAfterEscaped(s[1..], rest);
      var x := Escape(s[1..]);
      EscapeOfRest(s);
      EscapedHead(s[0], x, rest);
      MarkCons(s[0], x + rest);
      Regroup([s[0]], x, rest);
      Regroup([s[0]], Hide(s[1..]), Mark(rest));
    }
  }

  lemma Regroup(a: string, b: string, c: string)
    ensures (a + b) + c == a + (b + c)
  {}

  lemma EscapeOfOpening(s: string)
    requires "${" <= s
    ensures Escape(s) == "$${" + Escape(s[2..]) && Hide(s) == [NUL] + Hide(s[2..])
  {}

  lemma MarkEscape(t: string)
    ensures Mark("$${" + t) == [NUL] + Mark(t)
  {
    assert ("$${" + t)[3..] == t;
  }

  lemma EscapeOfRest(s: string)
    requires s != "" && !("${" <= s)
    ensures Escape(s) == [s[0]] + Escape(s[1..]) && Hide(s) == [s[0]] + Hide(s[1..])
    ensures !("${" <= Escape(s[1..])) && (Escape(s[1..]) == "" ==> |s| == 1)
  {
    EscapeHasNoOpeningHead(s[1..]);
  }

  lemma EscapedHead(c: char, x: string, rest: string)
    requires !("${" <= x) && (rest == "" || "${" <= rest)
    requires x == "" && rest != "" ==> c != '$'
    ensures !("$${" <= [c] + (x + rest))
  {
    OpeningPrefix(x);
    OpeningPrefix(rest);
    OpeningPrefix(x + rest);
    if x == "" {
      assert x + rest == rest;
    } else if |x| >= 2 {
      assert (x + rest)[1] == x[1];
    }
    NoEscapeInFront(c, x + rest);
  }

  lemma OpeningPrefix(t: string)
    ensures "${" <= t <==> |t| >= 2 && t[0] == '$' && t[1] == '{'
  {}

  lemma NoEscapeInFront(c: char, q: string)
    requires c != '$' || !("${" <= q)
    ensures !("$${" <= [c] + q)
  {
    EscapePrefix([c] + q);
    OpeningPrefix(q);
    assert |q| >= 2 ==> ([c] + q)[1] == q[0] && ([c] + q)[2] == q[1];
  }

  lemma {:induction false} MarkAfterPlain(p: string, rest: string)
    requires NoEscape(p) && (p != "" ==> p[|p| - 1] == '}')
    ensures Mark(p + rest) == p + Mark(rest)
  {
    if p == "" {
      assert p + rest == rest;
    } else {
      NoEscapeInRest(p);
      MarkAfterPlain(p[1..], rest);
      assert p + rest == [p[0]] + (p[1..] + rest);
      PlainHead(p, rest);
      MarkCons(p[0], p[1..] + rest);
      assert p + Mark(rest) == [p[0]] + (p[1..] + Mark(rest));
    }
  }

  lemma PlainHead(p: string, rest: string)
    requires NoEscape(p) && p != "" && p[|p| - 1] == '}'
    ensures !("$${" <= p + rest)
  {
    var t := p + rest;
    EscapePrefix(t);
    assert |p| >= 2 ==> t[1] == p[1];
    assert |p| >= 3 ==> t[2] == p[2];
  }

  lemma PrintHasNoEscape(h: Hole)
    requires WellFormed(h) && (h.fallback.Some? ==> NoEscape(h.fallback.value))
    ensures NoEscape(Print(h))
  {
    var p := Print(h);
    var e := 2 + |h.name|;
    assert forall i | 2 <= i < e :: p[i] == h.name[i - 2];
    if h.fallback.Some? {
      var f := h.fallback.value;
      assert p[e] == ':' && p[e + 1] == '-' && p[|p| - 1] == '}';
      assert forall i | e + 2 <= i < |p| - 1 :: p[i] == f[i - e - 2];
    } else {
      assert p[e] == '}';
    }
    forall i | 0 <= i < |p| - 2 ensures !(p[i] == '$' && p[i + 1] == '$' && p[i + 2] == '{') {
      if h.fallback.Some? && e + 2 <= i < |p| - 3 {
        var k := i - e - 2;
        assert p[i] == h.fallback.value[k] && p[i + 1] == h.fallback.value[k + 1];
        assert p[i + 2] == h.fallback.value[k + 2];
      }
    }
  }

  /** The text with its escapes marked. */
  function Marked(w: Written): string {
    match w
    case End(s) => Hide(s)
    case Then(s, h, rest) => Hide(s) + (Print(h) + Marked(rest))
  }

  lemma {:induction false} SpellMarks(w: Written)
    requires Spellable(w)
    ensures Mark(Spell(w)) == Marked(w)
  {
    match w
    case End(s) => MarkUndoesEscape(s);
    case Then(s, h, rest) =>
      SpellMarks(rest);
      PrintHasNoEscape(h);
      MarkAfterPlain(Print(h), Spell(rest));
      MarkAfterEscaped(s, Print(h) + Spell(rest));
  }

  function Literals(s: string): seq<Piece> {
    if s == "" then [] else [Literal(s[0])] + Literals(s[1..])
  }

  function Pieces(w: Written): seq<Piece> {
    match w
    case End(s) => Literals(Hide(s))
    case Then(s, h, rest) => Literals(Hide(s)) + ([Place(h)] + Pieces(rest))
  }

  lemma {:induction false} ScanAfterPlain(whole: string, s: string, rest: string)
    requires whole == s + rest && NoOpening(s) && (rest != "" ==> rest[0] != '{')
    ensures Scan(whole) == Literals(s) + Scan(rest)
    decreases |s|
  {
    if s == "" {
      assert whole == rest;
    } else {
      NoOpeningInRest(s);
      ScanAfterPlain(whole[1..], s[1..], rest);
      PlainScanned(whole, s, Scan(rest));
    }
  }

  lemma PlainScanned(whole: string, s: string, after: seq<Piece>)
    requires whole != "" && (whole[0] == '$' && |whole| > 1 ==> whole[1] != '{')
    requires s != "" && s[0] == whole[0] && Scan(whole[1..]) == Literals(s[1..]) + after
    ensures Scan(whole) == Literals(s) + after
  {
    ScanLiteral(whole);
    ConsAppend(Literal(s[0]), Literals(s[1..]), after);
  }

  lemma ScanLiteral(t: string)
    requires t != "" && (t[0] == '$' && |t| > 1 ==> t[1] != '{')
    ensures Scan(t) == [Literal(t[0])] + Scan(t[1..])
  {
    MatchOpens(t);
    ScanCons(t);
  }

  lemma NoOpeningInRest(s: string)
    requires s != "" && NoOpening(s)
    ensures NoOpening(s[1..])
  {
    assert forall i | 0 <= i < |s| - 1 :: s[1..][i] == s[i + 1];
  }

  lemma ConsAppend(p: Piece, ps: seq<Piece>, qs: seq<Piece>)
    ensures ([p] + ps) + qs == [p] + (ps + qs)
  {}

  lemma NoMatchInPlain(s: string, rest: string)
    requires s != "" && NoOpening(s) && (rest != "" ==> rest[0] != '{')
    ensures MatchAt(s + rest).None?
  {
    MatchOpens(s + rest);
    assert |s| >= 2 ==> !(s[0] == '$' && s[1] == '{');
  }

  lemma {:induction false} MarkedScans(w: Written)
    requires Spellable(w)
    ensures Scan(Marked(w)) == Pieces(w)
  {
    match w
    case End(s) =>
      HideHasNoOpening(s);
      ScanAfterPlain(Hide(s), Hide(s), "");
    case Then(s, h, rest) =>
      MarkedScans(rest);
      HideHasNoOpening(s);
      ScanOfPrinted(h, Marked(rest));
      ScanAfterPlain(Marked(w), Hide(s), Print(h) + Marked(rest));
  }

  lemma {:induction false} SubstituteAfterLiterals(s: string, ps: seq<Piece>, env: Env)
    ensures Substitute(Literals(s) + ps, env) ==
            match Substitute(ps, env) case Ok(t) => Ok(s + t) case Err(name) => Err(name)
  {
    if s == "" {
      assert Literals(s) + ps == ps;
      assert Substitute(ps, env).Ok? ==> "" + Substitute(ps, env).value == Substitute(ps, env).value;
    } else {
      SubstituteAfterLiterals(s[1..], ps, env);
      ConsAppend(Literal(s[0]), Literals(s[1..]), ps);
      SubstituteCons(s[0], Literals(s[1..]) + ps, env);
      if Substitute(ps, env).Ok? {
        var t := Substitute(ps, env).value;
        assert [s[0]] + (s[1..] + t) == s + t;
      }
    }
  }

  lemma SubstituteCons(c: char, ps: seq<Piece>, env: Env)
    ensures Substitute([Literal(c)] + ps, env) ==
            match Substitute(ps, env) case Ok(t) => Ok([c] + t) case Err(name) => Err(name)
  {
    assert ([Literal(c)] + ps)[1..] == ps;
  }

  /** What substitution gives, once its marks are undone, is the reading. */
  ghost predicate Reads(got: Result<string, string>, reading: Result<string, string>) {
    match reading
    case Ok(t) => got.Ok? && Unmark(got.value) == t
    case Err(name) => got == Err(name)
  }

  lemma {:induction false} PiecesRead(w: Written, env: Env)
    requires Spellable(w) && Clean(w, env)
    ensures Reads(Substitute(Pieces(w), env), Reading(w, env))
  {
    match w
    case End(s) =>
      SubstituteAfterLiterals(Hide(s), [], env);
      assert Literals(Hide(s)) + [] == Literals(Hide(s)) && Hide(s) + "" == Hide(s);
      UnmarkHide(s);
    case Then(s, h, rest) =>
      PiecesRead(rest, env);
      PieceReads(s, h, Pieces(rest), Reading(rest, env), env);
  }

  lemma PieceReads(s: string, h: Hole, ps: seq<Piece>, rest: Result<string, string>, env: Env)
    requires NUL !in s && Reads(Substitute(ps, env), rest)
    requires Resolve(h, env).Some? ==> NUL !in Resolve(h, env).value
    ensures Reads(
              Substitute(Literals(Hide(s)) + ([Place(h)] + ps), env),
              match Resolve(h, env)
              case None => Err(h.name)
              case Some(v) => match rest case Err(name) => Err(name) case Ok(t) => Ok(s + v + t))
  {
    var tail := [Place(h)] + ps;
    assert tail[1..] == ps;
    SubstituteAfterLiterals(Hide(s), tail, env);
    if Resolve(h, env).Some? && rest.Ok? {
      var v := Resolve(h, env).value;
      ValueReads(s, v, Substitute(ps, env).value);
    }
  }

  lemma ValueReads(s: string, v: string, got: string)
    requires NUL !in s && NUL !in v
    ensures Unmark(Hide(s) + (v + got)) == s + v + Unmark(got)
  {
    UnmarkHide(s);
    UnmarkPlain(v);
    UnmarkConcat(v, got);
    UnmarkConcat(Hide(s), v + got);
    Regroup(s, v, Unmark(got));
  }

  lemma WholeIffAlone(w: Written)
    requires Spellable(w)
    ensures Whole(Marked(w)) == if Alone(w) then Some(w.hole) else None
  {
    var t := Marked(w);
    if w.text == "" && w.Then? {
      PrintedMatches(w.hole, Marked(w.rest));
      assert t == Print(w.hole) + Marked(w.rest);
      assert Marked(w.rest) == "" <==> w.rest == End("");
    } else {
      HideHasNoOpening(w.text);
      assert w.text != "" ==> Hide(w.text) != "";
      if w.text == "" {
        assert t == "";
      } else if w.End? {
        assert Hide(w.text) + "" == t;
        NoMatchInPlain(Hide(w.text), "");
      } else {
        NoMatchInPlain(Hide(w.text), Print(w.hole) + Marked(w.rest));
      }
    }
  }

  /**
    The meaning of a written scalar: its literals, with the value or the fallback of each placeholder
    in its place. A placeholder without either makes the scalar fail, naming the first one, or, if it
    is all there is and may be absent, leaves it unresolved.
   */
  lemma InterpolateWritten(w: Written, env: Env, allowAbsent: bool)
    requires Spellable(w) && Clean(w, env)
    ensures Interpolate(Spell(w), env, allowAbsent) ==
            match Reading(w, env)
            case Ok(t) => Value(t)
            case Err(name) => if allowAbsent && Alone(w) then Unresolved else Unset(name)
  {
    SpellMarks(w);
    MarkedScans(w);
    PiecesRead(w, env);
    WholeIffAlone(w);
    if Alone(w) {
      AloneReads(w, env);
    }
  }

  lemma AloneReads(w: Written, env: Env)
    requires Spellable(w) && Clean(w, env) && Alone(w)
    ensures match Resolve(w.hole, env)
            case Some(v) => Reading(w, env) == Ok(Unmark(v))
            case None => Reading(w, env).Err?
  {
    if Resolve(w.hole, env).Some? {
      var v := Resolve(w.hole, env).value;
      UnmarkPlain(v);
      assert Reading(w.rest, env) == Ok("") && "" + v + "" == v;
    }
  }
}
