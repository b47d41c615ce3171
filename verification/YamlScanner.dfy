/** Placeholders in one YAML scalar: `${NAME}`, `${NAME:-fallback}`, and `$${` for a literal `${`. */
module YamlScanner {
  import opened Common

  type Env = map<string, string>

  /** Stands for an escaped `${` while substitution runs. */
  const NUL: char := '\0'

  datatype Hole = Hole(name: string, fallback: Option<string>)

  datatype Piece = Literal(c: char) | Place(hole: Hole)

  datatype Outcome = Value(text: string) | Unresolved | Unset(name: string)

  // ---------------------------------------------------------------- the placeholder pattern

  predicate NameStart(c: char) {
    'A' <= c <= 'Z' || 'a' <= c <= 'z' || c == '_'
  }

  predicate NameChar(c: char) {
    NameStart(c) || '0' <= c <= '9'
  }

  /** The length of the longest run of name characters at the start. */
  function NameLength(t: string): (n: nat)
    ensures n <= |t| && (forall i | 0 <= i < n :: NameChar(t[i])) && (n < |t| ==> !NameChar(t[n]))
  {
    if t == "" || !NameChar(t[0]) then 0 else 1 + NameLength(t[1..])
  }

  /** The position of the first closing brace, or the length if there is none. */
  function BraceIndex(t: string): (n: nat)
    ensures n <= |t| && (forall i | 0 <= i < n :: t[i] != '}') && (n < |t| ==> t[n] == '}')
  {
    if t == "" || t[0] == '}' then 0 else 1 + BraceIndex(t[1..])
  }

  /** The placeholder at the start of the text, with its length. */
  function MatchAt(t: string): (m: Option<(Hole, nat)>)
    ensures m.Some? ==> 0 < m.value.1 <= |t|
  {
    if |t| < 3 || t[0] != '$' || t[1] != '{' || !NameStart(t[2]) then None
    else
      var n := 2 + NameLength(t[2..]);
      var name := t[2..n];
      if n < |t| && t[n] == '}' then Some((Hole(name, None), n + 1))
      else if n + 1 < |t| && t[n] == ':' && t[n + 1] == '-' then
        var k := n + 2 + BraceIndex(t[n + 2..]);
        if k < |t| then Some((Hole(name, Some(t[n + 2..k])), k + 1)) else None
      else None
  }

  /** Left to right: a placeholder where one starts, and a single character elsewhere. */
  function Scan(t: string): seq<Piece>
    decreases |t|
  {
    if t == "" then []
    else
      match MatchAt(t)
      case Some((hole, n)) => [Place(hole)] + Scan(t[n..])
      case None => [Literal(t[0])] + Scan(t[1..])
  }

  function Print(h: Hole): string {
    "${" + h.name + (if h.fallback.Some? then ":-" + h.fallback.value else "") + "}"
  }

  function PrintAll(ps: seq<Piece>): string {
    if ps == [] then ""
    else (match ps[0] case Literal(c) => [c] case Place(h) => Print(h)) + PrintAll(ps[1..])
  }

  /** A hole that the grammar can spell. */
  predicate WellFormed(h: Hole) {
    && h.name != "" && NameStart(h.name[0]) && (forall i | 0 <= i < |h.name| :: NameChar(h.name[i]))
    && (h.fallback.Some? ==> '}' !in h.fallback.value)
  }

  lemma MatchIsPrinted(t: string)
    requires MatchAt(t).Some?
    ensures var (h, n) := MatchAt(t).value; WellFormed(h) && Print(h) == t[..n]
  {
    var (h, n) := MatchAt(t).value;
    var e := 2 + NameLength(t[2..]);
    OpenedName(t, e);
    if h.fallback.Some? {
      ClosedFallback(t, e, n - 1);
    } else {
      assert t[..n] == t[..e] + [t[e]];
    }
  }

  /** The name that follows an opening. */
  lemma OpenedName(t: string, e: nat)
    requires |t| >= 3 && t[0] == '$' && t[1] == '{' && NameStart(t[2]) && e == 2 + NameLength(t[2..])
    ensures 2 < e <= |t| && t[..e] == "${" + t[2..e] && t[2..e][0] == t[2]
    ensures forall i | 0 <= i < e - 2 :: NameChar(t[2..e][i])
  {
    assert forall i | 2 <= i < e :: t[i] == t[2..][i - 2];
    assert e > 2 by {
      assert t[2..][0] == t[2] && NameChar(t[2]);
    }
    assert t[..e] == t[..2] + t[2..e];
    assert t[..2] == "${";
  }

  /** The fallback up to the first closing brace. */
  lemma ClosedFallback(t: string, e: nat, k: nat)
    requires e + 1 < |t| && t[e] == ':' && t[e + 1] == '-'
    requires k == e + 2 + BraceIndex(t[e + 2..]) < |t|
    ensures '}' !in t[e + 2..k] && t[..k + 1] == t[..e] + (":-" + t[e + 2..k]) + "}"
  {
    assert forall i | e + 2 <= i < k :: t[i] == t[e + 2..][i - e - 2];
    assert t[k] == t[e + 2..][k - e - 2];
    assert t[..k + 1] == t[..e] + [t[e], t[e + 1]] + t[e + 2..k] + [t[k]];
  }

  lemma NameLengthIs(t: string, n: nat)
    requires n < |t| && (forall i | 0 <= i < n :: NameChar(t[i])) && !NameChar(t[n])
    ensures NameLength(t) == n
  {}

  lemma BraceIndexIs(t: string, n: nat)
    requires n < |t| && (forall i | 0 <= i < n :: t[i] != '}') && t[n] == '}'
    ensures BraceIndex(t) == n
  {}

  lemma PrintedMatches(h: Hole, rest: string)
    requires WellFormed(h)
    ensures MatchAt(Print(h) + rest) == Some((h, |Print(h)|))
  {
    match h.fallback
    case None =>
      var tail := "}" + rest;
      assert Print(h) + rest == "${" + h.name + tail;
      PrintedNameMatches(h.name, tail);
      MatchesBare("${" + h.name + tail, h.name);
    case Some(f) =>
      PrintedWithFallback(h.name, f, rest);
      assert Print(h) + rest == "${" + h.name + (":-" + (f + "}" + rest));
  }

  lemma PrintedWithFallback(name: string, f: string, rest: string)
    requires name != "" && NameStart(name[0]) && forall i | 0 <= i < |name| :: NameChar(name[i])
    requires '}' !in f
    ensures MatchAt("${" + name + (":-" + (f + "}" + rest))) == Some((Hole(name, Some(f)), |name| + |f| + 5))
  {
    var tail := ":-" + (f + "}" + rest);
    PrintedNameMatches(name, tail);
    PrintedFallbackMatches(name, f, rest);
    MatchesFallback("${" + name + tail, name, f);
  }

  /** The text starts with an opening and this name. */
  predicate Opens(t: string, name: string) {
    && |t| > 2 + |name| && t[0] == '$' && t[1] == '{' && NameStart(t[2])
    && NameLength(t[2..]) == |name| > 0 && t[2..2 + |name|] == name
  }

  lemma MatchesBare(t: string, name: string)
    requires Opens(t, name) && t[2 + |name|] == '}'
    ensures MatchAt(t) == Some((Hole(name, None), |name| + 3))
  {}

  lemma MatchesFallback(t: string, name: string, f: string)
    requires Opens(t, name) && |name| + |f| + 4 < |t|
    requires t[2 + |name|] == ':' && t[3 + |name|] == '-'
    requires BraceIndex(t[|name| + 4..]) == |f| && t[|name| + 4..|name| + 4 + |f|] == f
    ensures MatchAt(t) == Some((Hole(name, Some(f)), |name| + |f| + 5))
  {}

  /** The name ends where the text goes on with something that is no part of one. */
  lemma PrintedNameMatches(name: string, tail: string)
    requires name != "" && NameStart(name[0]) && forall i | 0 <= i < |name| :: NameChar(name[i])
    requires tail != "" && !NameChar(tail[0])
    ensures var t := "${" + name + tail;
            Opens(t, name) && t[2 + |name|..] == tail
  {
    var t := "${" + name + tail;
    assert t[2..] == name + tail;
    assert forall i | 0 <= i < |name| :: (name + tail)[i] == name[i];
    NameLengthIs(name + tail, |name|);
  }

  lemma PrintedFallbackMatches(name: string, f: string, rest: string)
    requires '}' !in f
    ensures var t := "${" + name + (":-" + (f + "}" + rest));
            var k := |name| + 4;
            && t[k - 2] == ':' && t[k - 1] == '-'
            && BraceIndex(t[k..]) == |f| && t[k..k + |f|] == f
  {
    var t := "${" + name + (":-" + (f + "}" + rest));
    var k := |name| + 4;
    assert t[k..] == f + "}" + rest;
    assert forall i | 0 <= i < |f| :: t[k..][i] == f[i];
    BraceIndexIs(t[k..], |f|);
  }

  /** The matcher accepts exactly the grammar: a well-formed hole printed at the start of the text. */
  lemma MatchIffGrammar(t: string, h: Hole, n: nat)
    ensures MatchAt(t) == Some((h, n)) <==> WellFormed(h) && Print(h) <= t && n == |Print(h)|
  {
    if MatchAt(t) == Some((h, n)) {
      MatchIsPrinted(t);
    }
    if WellFormed(h) && Print(h) <= t {
      PrintedMatches(h, t[|Print(h)|..]);
      assert Print(h) + t[|Print(h)|..] == t;
    }
  }

  /** The pieces concatenate back to the text. */
  lemma {:induction false} ScanRoundTrip(t: string)
    ensures PrintAll(Scan(t)) == t
    decreases |t|
  {
    if t != "" {
      match MatchAt(t) {
        case Some((h, n)) =>
          MatchIsPrinted(t);
          ScanRoundTrip(t[n..]);
          ScanPlace(t);
          PrintAllCons(Place(h), Scan(t[n..]));
          assert t[..n] + t[n..] == t;
        case None =>
          ScanRoundTrip(t[1..]);
          ScanCons(t);
          PrintAllCons(Literal(t[0]), Scan(t[1..]));
          assert [t[0]] + t[1..] == t;
      }
    }
  }

  lemma ScanPlace(t: string)
    requires MatchAt(t).Some?
    ensures Scan(t) == [Place(MatchAt(t).value.0)] + Scan(t[MatchAt(t).value.1..])
  {}

  lemma ScanCons(t: string)
    requires t != "" && MatchAt(t).None?
    ensures Scan(t) == [Literal(t[0])] + Scan(t[1..])
  {}

  lemma PrintAllCons(p: Piece, ps: seq<Piece>)
    ensures PrintAll([p] + ps) == (match p case Literal(c) => [c] case Place(h) => Print(h)) + PrintAll(ps)
  {
    assert ([p] + ps)[1..] == ps;
  }

  // ---------------------------------------------------------------- interpolation

  /** `s.replace("$${", NUL)`. */
  function Mark(s: string): string {
    if s == "" then ""
    else if "$${" <= s then [NUL] + Mark(s[3..])
    else [s[0]] + Mark(s[1..])
  }

  /** `s.replace(NUL, "${")`. */
  function Unmark(s: string): string {
    if s == "" then "" else (if s[0] == NUL then "${" else [s[0]]) + Unmark(s[1..])
  }

  /** What supplies a placeholder: the environment, else its fallback. */
  function Resolve(h: Hole, env: Env): Option<string> {
    if h.name in env then Some(env[h.name]) else h.fallback
  }

  /** Replaces every placeholder, or reports the first one that nothing supplies. */
  function Substitute(ps: seq<Piece>, env: Env): Result<string, string> {
    if ps == [] then Ok("")
    else
      var head := match ps[0] case Literal(c) => Some([c]) case Place(h) => Resolve(h, env);
      if head.None? then Err(ps[0].hole.name)
      else
        match Substitute(ps[1..], env)
        case Ok(rest) => Ok(head.value + rest)
        case Err(name) => Err(name)
  }

  /** The placeholder that makes up the whole text. */
  function Whole(t: string): Option<Hole> {
    match MatchAt(t)
    case Some((h, n)) => if n == |t| then Some(h) else None
    case None => None
  }

  function Interpolate(raw: string, env: Env, allowAbsent: bool): Outcome {
    var text := Mark(raw);
    if Whole(text).Some? && allowAbsent then
      match Resolve(Whole(text).value, env)
      case None => Unresolved
      case Some(v) => Value(Unmark(v))
    else
      match Substitute(Scan(text), env)
      case Ok(t) => Value(Unmark(t))
      case Err(name) => Unset(name)
  }

  // ---------------------------------------------------------------- what interpolation means

  /** The placeholders of a scalar, in order. */
  function Holes(raw: string): seq<Hole> {
    HolesOf(Scan(Mark(raw)))
  }

  function HolesOf(ps: seq<Piece>): seq<Hole> {
    if ps == [] then []
    else (match ps[0] case Literal(_) => [] case Place(h) => [h]) + HolesOf(ps[1..])
  }

  /** A text read piece by piece: each placeholder contributes its value once, as it is. */
  function Fill(ps: seq<Piece>, env: Env): string
    requires forall h | h in HolesOf(ps) :: Resolve(h, env).Some?
  {
    if ps == [] then ""
    else
      assert ps[0].Place? ==> ps[0].hole in HolesOf(ps) && Resolve(ps[0].hole, env).Some?;
      (match ps[0]
       case Literal(c) => if c == NUL then "${" else [c]
       case Place(h) => if h.name in env then env[h.name] else Unmark(h.fallback.value))
      + Fill(ps[1..], env)
  }

  lemma {:induction false} UnmarkConcat(s: string, t: string)
    ensures Unmark(s + t) == Unmark(s) + Unmark(t)
  {
    if s == "" {
      assert s + t == t;
    } else {
      var head := if s[0] == NUL then "${" else [s[0]];
      UnmarkConcat(s[1..], t);
      assert (s + t)[1..] == s[1..] + t;
      assert head + (Unmark(s[1..]) + Unmark(t)) == head + Unmark(s[1..]) + Unmark(t);
    }
  }

  lemma {:induction false} UnmarkPlain(s: string)
    requires NUL !in s
    ensures Unmark(s) == s
  {
    if s != "" {
      UnmarkPlain(s[1..]);
    }
  }

  lemma {:induction false} SubstituteFills(ps: seq<Piece>, env: Env)
    requires forall h | h in HolesOf(ps) && h.name in env :: NUL !in env[h.name]
    ensures Substitute(ps, env).Ok? <==> forall h | h in HolesOf(ps) :: Resolve(h, env).Some?
    ensures Substitute(ps, env).Ok? ==> Unmark(Substitute(ps, env).value) == Fill(ps, env)
  {
    if ps != [] {
      SubstituteFills(ps[1..], env);
      var rest := Substitute(ps[1..], env);
      match ps[0]
      case Literal(c) =>
        if rest.Ok? {
          UnmarkConcat([c], rest.value);
        }
      case Place(h) =>
        assert HolesOf(ps) == [h] + HolesOf(ps[1..]);
        if Resolve(h, env).Some? && rest.Ok? {
          UnmarkConcat(Resolve(h, env).value, rest.value);
          if h.name in env {
            UnmarkPlain(env[h.name]);
          }
        }
    }
  }

  lemma WholeScans(t: string)
    requires Whole(t).Some?
    ensures Scan(t) == [Place(Whole(t).value)]
  {
    assert t[|t|..] == "";
  }

  /**
    The meaning of interpolation, for values without NUL. A placeholder standing alone may be left
    unresolved; otherwise interpolation fails exactly when some placeholder has neither a value nor
    a fallback, and yields the text with each placeholder replaced once and nothing scanned again.
   */
  lemma InterpolateMeans(raw: string, env: Env, allowAbsent: bool)
    requires forall h | h in Holes(raw) && h.name in env :: NUL !in env[h.name]
    ensures var o := Interpolate(raw, env, allowAbsent);
            var alone := allowAbsent && Whole(Mark(raw)).Some?;
            var supplied := forall h | h in Holes(raw) :: Resolve(h, env).Some?;
            && (o.Unresolved? <==> alone && !supplied)
            && (o.Unset? <==> !alone && !supplied)
            && (supplied ==> o == Value(Fill(Scan(Mark(raw)), env)))
  {
    var text := Mark(raw);
    SubstituteFills(Scan(text), env);
    if Whole(text).Some? {
      WholeScans(text);
      var h := Whole(text).value;
      assert HolesOf(Scan(text)) == [h] + HolesOf([]);
      assert h in Holes(raw);
      if h.name in env {
        UnmarkPlain(env[h.name]);
      }
      if Resolve(h, env).Some? {
        assert Scan(text)[1..] == [];
        assert Fill(Scan(text), env) == Unmark(Resolve(h, env).value) + "";
      }
    }
  }

  /** Standing alone or embedded, a scalar whose placeholders are supplied means the same. */
  lemma WholeAgreesWithEmbedded(raw: string, env: Env)
    requires Interpolate(raw, env, true).Value? || Interpolate(raw, env, false).Value?
    ensures Interpolate(raw, env, true) == Interpolate(raw, env, false)
  {
    var text := Mark(raw);
    if Whole(text).Some? {
      WholeScans(text);
      var h := Whole(text).value;
      if Resolve(h, env).Some? {
        assert Substitute(Scan(text)[1..], env) == Ok("");
        assert Resolve(h, env).value + "" == Resolve(h, env).value;
      }
    }
  }

  lemma {:induction false} SubstituteReadsOnly(ps: seq<Piece>, env: Env, env': Env)
    requires forall h | h in HolesOf(ps) :: Resolve(h, env) == Resolve(h, env')
    ensures Substitute(ps, env) == Substitute(ps, env')
  {
    if ps != [] {
      assert forall h | h in HolesOf(ps[1..]) :: h in HolesOf(ps);
      SubstituteReadsOnly(ps[1..], env, env');
    }
  }

  /** The result depends on the environment only through the variables the scalar names. */
  lemma InterpolateReadsOnly(raw: string, env: Env, env': Env, allowAbsent: bool)
    requires forall h | h in Holes(raw) ::
               (h.name in env <==> h.name in env') && (h.name in env ==> env[h.name] == env'[h.name])
    ensures Interpolate(raw, env, allowAbsent) == Interpolate(raw, env', allowAbsent)
  {
    var text := Mark(raw);
    SubstituteReadsOnly(Scan(text), env, env');
    if Whole(text).Some? {
      WholeScans(text);
      assert HolesOf(Scan(text)) == [Whole(text).value] + HolesOf([]);
    }
  }

  // ---------------------------------------------------------------- escaping

  /** `s.replace("${", "$${")`. */
  function Escape(s: string): string {
    if s == "" then ""
    else if "${" <= s then "$${" + Escape(s[2..])
    else [s[0]] + Escape(s[1..])
  }

  /** `s.replace("${", NUL)`. */
  function Hide(s: string): string {
    if s == "" then ""
    else if "${" <= s then [NUL] + Hide(s[2..])
    else [s[0]] + Hide(s[1..])
  }

  predicate NoOpening(s: string) {
    forall i | 0 <= i < |s| - 1 :: !(s[i] == '$' && s[i + 1] == '{')
  }

  lemma EscapeHasNoOpeningHead(s: string)
    ensures !("${" <= Escape(s))
  {
    if s != "" && !("${" <= s) && |s| > 1 {
      var r := s[1..];
      assert Escape(s) == [s[0]] + Escape(r);
      assert Escape(r)[0] == r[0];
    }
  }

  lemma {:induction false} MarkUndoesEscape(s: string)
    ensures Mark(Escape(s)) == Hide(s)
  {
    if s == "" {
    } else if "${" <= s {
      MarkUndoesEscape(s[2..]);
      assert ("$${" + Escape(s[2..]))[3..] == Escape(s[2..]);
    } else {
      MarkUndoesEscape(s[1..]);
      EscapeHasNoOpeningHead(s[1..]);
      var e := Escape(s);
      assert e[1..] == Escape(s[1..]);
      assert |e| >= 3 ==> e[1..][0] == e[1] && e[1..][1] == e[2];
    }
  }

  lemma {:induction false} HideHasNoOpening(s: string)
    ensures NoOpening(Hide(s))
    ensures s != "" && Hide(s)[0] == '{' ==> s[0] == '{'
  {
    if s == "" {
    } else if "${" <= s {
      HideHasNoOpening(s[2..]);
    } else {
      HideHasNoOpening(s[1..]);
      var h := Hide(s);
      assert h[1..] == Hide(s[1..]);
      forall i | 0 <= i < |h| - 1 ensures !(h[i] == '$' && h[i + 1] == '{') {
        if i > 0 {
          assert h[i] == h[1..][i - 1] && h[i + 1] == h[1..][i];
        }
      }
    }
  }

  lemma {:induction false} PlainTextSubstitutes(t: string, env: Env)
    requires NoOpening(t)
    ensures Substitute(Scan(t), env) == Ok(t)
    decreases |t|
  {
    if t != "" {
      NoMatchWithoutOpening(t);
      PlainTextSubstitutes(t[1..], env);
      assert Scan(t)[0] == Literal(t[0]) && Scan(t)[1..] == Scan(t[1..]);
      assert [t[0]] + t[1..] == t;
    }
  }

  function NulCount(s: string): nat {
    if s == "" then 0 else (if s[0] == NUL then 1 else 0) + NulCount(s[1..])
  }

  lemma {:induction false} UnmarkHide(s: string)
    ensures |Unmark(Hide(s))| == |s| + NulCount(s)
    ensures NUL !in s ==> Unmark(Hide(s)) == s
  {
    if s == "" {
    } else if "${" <= s {
      UnmarkHide(s[2..]);
      assert s[1..][1..] == s[2..];
      assert NulCount(s) == NulCount(s[1..]) == NulCount(s[2..]);
      assert Unmark([NUL] + Hide(s[2..])) == "${" + Unmark(Hide(s[2..]));
      assert s == "${" + s[2..];
    } else {
      UnmarkHide(s[1..]);
      assert Unmark([s[0]] + Hide(s[1..])) == (if s[0] == NUL then "${" else [s[0]]) + Unmark(Hide(s[1..]));
    }
  }

  lemma {:induction false} NulCounted(s: string)
    ensures NulCount(s) == 0 <==> NUL !in s
  {
    if s != "" {
      NulCounted(s[1..]);
      assert s == [s[0]] + s[1..];
    }
  }

  /** Escaping makes a text literal in every environment exactly when the text holds no NUL. */
  lemma EscapeRoundTrip(s: string, env: Env, allowAbsent: bool)
    ensures Interpolate(Escape(s), env, allowAbsent) == Value(s) <==> NUL !in s
  {
    EscapedIsLiteral(s, env, allowAbsent);
    UnmarkHide(s);
    NulCounted(s);
  }

  lemma EscapedIsLiteral(s: string, env: Env, allowAbsent: bool)
    ensures Interpolate(Escape(s), env, allowAbsent) == Value(Unmark(Hide(s)))
  {
    MarkUndoesEscape(s);
    HideHasNoOpening(s);
    PlainTextSubstitutes(Hide(s), env);
    NoMatchWithoutOpening(Hide(s));
  }

  lemma NoMatchWithoutOpening(t: string)
    requires NoOpening(t)
    ensures MatchAt(t).None?
  {}
}
