/** Character-level naming helpers: camelCase and snake_case conversion,
    ASCII case mapping, and the dotted-path and base-name projections the
    relation descriptors use. */
module Str {

  predicate IsUpper(c: char) { 'A' <= c <= 'Z' }
  predicate IsLower(c: char) { 'a' <= c <= 'z' }

  /** strtoupper/strtolower on one byte: only ASCII letters change. */
  function Upper(c: char): (r: char)
    ensures IsLower(c) ==> IsUpper(r)
    ensures !IsLower(c) ==> r == c
  {
    if IsLower(c) then (c as int - 32) as char else c
  }

  function Lower(c: char): (r: char)
    ensures IsUpper(c) ==> IsLower(r)
    ensures !IsUpper(c) ==> r == c
  {
    if IsUpper(c) then (c as int + 32) as char else c
  }

  lemma LowerUpper(c: char)
    requires IsLower(c)
    ensures Lower(Upper(c)) == c
  {
  }

  /** strtolower. */
  function ToLower(s: string): (r: string)
    ensures |r| == |s|
    ensures forall i :: 0 <= i < |s| ==> r[i] == Lower(s[i])
  {
    if s == [] then [] else [Lower(s[0])] + ToLower(s[1..])
  }

  /** The characters ucwords treats as word separators. */
  predicate IsWordDelimiter(c: char) {
    c == ' ' || c == '\t' || c == '\r' || c == '\n' || c == '\U{C}' || c == '\U{B}'
  }

  /** str_replace of one character by another. */
  function ReplaceChar(s: string, from: char, to: char): (r: string)
    ensures |r| == |s|
    ensures from != to ==> from !in r
  {
    if s == [] then [] else [if s[0] == from then to else s[0]] + ReplaceChar(s[1..], from, to)
  }

  /** str_replace of one character by the empty string. */
  function RemoveChar(s: string, c: char): (r: string)
    ensures forall i :: 0 <= i < |r| ==> r[i] != c
    ensures c !in s ==> r == s
  {
    if s == [] then [] else (if s[0] == c then [] else [s[0]]) + RemoveChar(s[1..], c)
  }

  /** ucwords: upper-case the first character and every character that follows
      a word delimiter; `afterDelimiter` says whether the previous character was one
      (or there was none). */
  function UcWordsFrom(s: string, afterDelimiter: bool): (r: string)
    ensures |r| == |s|
  {
    if s == [] then []
    else [if afterDelimiter then Upper(s[0]) else s[0]] + UcWordsFrom(s[1..], IsWordDelimiter(s[0]))
  }

  function LcFirst(s: string): (r: string)
    ensures |r| == |s|
    ensures |s| > 0 ==> r[0] == Lower(s[0]) && r[1..] == s[1..]
  {
    if s == [] then [] else [Lower(s[0])] + s[1..]
  }

  /** Str::camelize: underscores become word breaks, every word but the first is
      capitalised, and the spaces between words are dropped. */
  function Camelize(s: string): (r: string)
    ensures '_' !in r && ' ' !in r
  {
    var spaced := ReplaceChar(s, '_', ' ');
    var capitalised := UcWordsFrom(spaced, true);
    assert '_' !in capitalised by {
      assert '_' !in spaced;
      UcWordsKeepsUnderscores(spaced, true);
    }
    var joined := RemoveChar(capitalised, ' ');
    assert '_' !in joined by {
      if '_' in joined { RemoveCharKeeps(capitalised, ' ', '_'); }
    }
    LcFirst(joined)
  }

  /** ucwords changes only lower-case letters, so it introduces no underscore. */
  lemma {:induction false} UcWordsKeepsUnderscores(s: string, p: bool)
    requires '_' !in s
    ensures '_' !in UcWordsFrom(s, p)
  {
    if s != [] {
      assert '_' !in s[1..];
      UcWordsKeepsUnderscores(s[1..], IsWordDelimiter(s[0]));
    }
  }

  /** Removing one character never introduces another. */
  lemma {:induction false} RemoveCharKeeps(s: string, c: char, d: char)
    requires d in RemoveChar(s, c)
    ensures d in s
  {
    if s != [] {
      var head := if s[0] == c then [] else [s[0]];
      if d !in head {
        assert RemoveChar(s, c) == head + RemoveChar(s[1..], c);
        RemoveCharKeeps(s[1..], c, d);
      }
    }
  }

  lemma {:induction false} RemoveCharConcat(x: string, y: string, c: char)
    ensures RemoveChar(x + y, c) == RemoveChar(x, c) + RemoveChar(y, c)
  {
    if x == [] {
      assert x + y == y;
    } else {
      assert (x + y)[1..] == x[1..] + y;
      RemoveCharConcat(x[1..], y, c);
    }
  }

  /** Str::snakeCase: a regex replace of `(^|[a-z])([A-Z])`, scanning left to
      right over non-overlapping matches. An upper-case first character is
      lower-cased; a lower-case letter followed by an upper-case one gets an
      underscore between them and the upper-case one is lower-cased. */
  function SnakeFrom(s: string, atStart: bool): string
  {
    if s == [] then []
    else if atStart && IsUpper(s[0]) then [Lower(s[0])] + SnakeFrom(s[1..], false)
    else if |s| >= 2 && IsLower(s[0]) && IsUpper(s[1]) then [s[0], '_', Lower(s[1])] + SnakeFrom(s[2..], false)
    else [s[0]] + SnakeFrom(s[1..], false)
  }

  /** snakeCase only inserts underscores and changes the case of letters:
      without its underscores the result is the input up to case. */
  function SnakeCase(s: string): (r: string)
    ensures |s| <= |r|
    ensures ToLower(RemoveChar(r, '_')) == ToLower(RemoveChar(s, '_'))
  {
    SnakeFromCaseOnly(s, true);
    SnakeFrom(s, true)
  }

  lemma ToLowerConcat(x: string, y: string)
    ensures ToLower(x + y) == ToLower(x) + ToLower(y)
  {
    assert forall i :: 0 <= i < |x + y| ==> ToLower(x + y)[i] == (ToLower(x) + ToLower(y))[i];
  }

  /** Dropping underscores and lower-casing distribute over concatenation. */
  lemma LowerRemovedConcat(x: string, y: string)
    ensures ToLower(RemoveChar(x + y, '_')) == ToLower(RemoveChar(x, '_')) + ToLower(RemoveChar(y, '_'))
  {
    RemoveCharConcat(x, y, '_');
    ToLowerConcat(RemoveChar(x, '_'), RemoveChar(y, '_'));
  }

  /** Emitting `head` for the consumed `consumed`, then a tail equal up to
      case and underscores, keeps the whole equal up to case and
      underscores. */
  lemma SnakeJoin(head: string, consumed: string, tailOut: string, tailIn: string)
    requires |consumed| <= |head| && |tailIn| <= |tailOut|
    requires ToLower(RemoveChar(head, '_')) == ToLower(RemoveChar(consumed, '_'))
    requires ToLower(RemoveChar(tailOut, '_')) == ToLower(RemoveChar(tailIn, '_'))
    ensures |consumed + tailIn| <= |head + tailOut|
    ensures ToLower(RemoveChar(head + tailOut, '_')) == ToLower(RemoveChar(consumed + tailIn, '_'))
  {
    LowerRemovedConcat(head, tailOut);
    LowerRemovedConcat(consumed, tailIn);
  }

  /** A lower-cased capital is the capital up to case. */
  lemma UpperHead(c: char)
    requires IsUpper(c)
    ensures ToLower(RemoveChar([Lower(c)], '_')) == ToLower(RemoveChar([c], '_'))
  {
    assert RemoveChar([Lower(c)], '_') == [Lower(c)] && RemoveChar([c], '_') == [c];
  }

  /** `a_b` for `aB` is the pair up to case and underscores. */
  lemma BoundaryHead(a: char, b: char)
    requires IsLower(a) && IsUpper(b)
    ensures ToLower(RemoveChar([a, '_', Lower(b)], '_')) == ToLower(RemoveChar([a, b], '_'))
  {
    assert [a, '_', Lower(b)][1..] == ['_', Lower(b)] && ['_', Lower(b)][1..] == [Lower(b)];
    assert RemoveChar([a, '_', Lower(b)], '_') == [a, Lower(b)];
    assert [a, b][1..] == [b];
    assert RemoveChar([a, b], '_') == [a, b];
  }

  /** Each step of snakeCase emits, up to case and underscores, the
      characters it consumes. */
  lemma {:induction false} SnakeFromCaseOnly(s: string, atStart: bool)
    ensures |s| <= |SnakeFrom(s, atStart)|
    ensures ToLower(RemoveChar(SnakeFrom(s, atStart), '_')) == ToLower(RemoveChar(s, '_'))
    decreases |s|, 1
  {
    if s == [] {
    } else if atStart && IsUpper(s[0]) {
      SnakeFromCapital(s);
    } else if |s| >= 2 && IsLower(s[0]) && IsUpper(s[1]) {
      SnakeFromBoundary(s, atStart);
    } else {
      SnakeFromCaseOnly(s[1..], false);
      assert SnakeFrom(s, atStart) == [s[0]] + SnakeFrom(s[1..], false);
      assert s == [s[0]] + s[1..];
      SnakeJoin([s[0]], [s[0]], SnakeFrom(s[1..], false), s[1..]);
    }
  }

  /** The step for a leading capital. */
  lemma {:induction false} SnakeFromCapital(s: string)
    requires |s| > 0 && IsUpper(s[0])
    ensures |s| <= |SnakeFrom(s, true)|
    ensures ToLower(RemoveChar(SnakeFrom(s, true), '_')) == ToLower(RemoveChar(s, '_'))
    decreases |s|, 0
  {
    SnakeFromCaseOnly(s[1..], false);
    UpperHead(s[0]);
    assert s == [s[0]] + s[1..];
    SnakeJoin([Lower(s[0])], [s[0]], SnakeFrom(s[1..], false), s[1..]);
  }

  /** The step for a lower-case letter followed by a capital. */
  lemma {:induction false} SnakeFromBoundary(s: string, atStart: bool)
    requires |s| >= 2 && IsLower(s[0]) && IsUpper(s[1])
    ensures |s| <= |SnakeFrom(s, atStart)|
    ensures ToLower(RemoveChar(SnakeFrom(s, atStart), '_')) == ToLower(RemoveChar(s, '_'))
    decreases |s|, 0
  {
    SnakeFromCaseOnly(s[2..], false);
    BoundaryHead(s[0], s[1]);
    assert s == [s[0], s[1]] + s[2..];
    SnakeJoin([s[0], '_', Lower(s[1])], [s[0], s[1]], SnakeFrom(s[2..], false), s[2..]);
  }

  predicate NoUpper(s: string) { forall i :: 0 <= i < |s| ==> !IsUpper(s[i]) }

  /** A string with no upper-case letter is left unchanged. */
  lemma {:induction false} SnakeCaseNoUpper(s: string, atStart: bool)
    requires NoUpper(s)
    ensures SnakeFrom(s, atStart) == s
  {
    if s != [] {
      SnakeCaseNoUpper(s[1..], false);
    }
  }

  /** Letters only. */
  predicate Letters(s: string) {
    s == [] || ((IsLower(s[0]) || IsUpper(s[0])) && Letters(s[1..]))
  }

  lemma {:induction false} LettersAt(s: string, i: nat)
    requires Letters(s) && i < |s|
    ensures IsLower(s[i]) || IsUpper(s[i])
  {
    if i > 0 {
      LettersAt(s[1..], i - 1);
    }
  }

  predicate NoDoubleUpper(s: string) { forall i :: 0 <= i < |s| - 1 ==> !(IsUpper(s[i]) && IsUpper(s[i + 1])) }

  /** A camelCase word: ASCII letters, lower-case first letter, and no two
      upper-case letters next to each other. */
  predicate CamelWord(s: string) {
    Letters(s) && (|s| > 0 ==> IsLower(s[0])) && NoDoubleUpper(s)
  }

  /** A suffix of a camel word that starts at a lower-case letter is one too. */
  lemma CamelSuffix(s: string, k: nat)
    requires Letters(s) && NoDoubleUpper(s) && 1 <= k <= 2 && k <= |s| && (k < |s| ==> !IsUpper(s[k]))
    ensures CamelWord(s[k..])
  {
    var t := s[k..];
    assert Letters(s[1..]);
    if k == 2 { assert Letters(s[1..][1..]); }
    assert forall i :: 0 <= i < |t| ==> t[i] == s[k + i];
    if k == 2 { assert s[1..][1..] == t; }
  }

  /** snakeCase and camelize are inverse on camelCase words:
      `userProfile` -> `user_profile` -> `userProfile`. */
  lemma CamelizeSnakeCase(s: string)
    requires CamelWord(s)
    ensures Camelize(SnakeCase(s)) == s
  {
    if s != [] {
      SnakeNotAtStart(s);
      var t := SnakeFrom(s, false);
      SnakeShape(s);
      var spaced := ReplaceChar(t, '_', ' ');
      UcWordsRespaced(s);
      RemoveSpacesRestores(s, UcWordsFrom(spaced, false));
      assert UcWordsFrom(spaced, true) == [Upper(spaced[0])] + UcWordsFrom(spaced[1..], IsWordDelimiter(spaced[0]));
      assert UcWordsFrom(spaced, false) == [spaced[0]] + UcWordsFrom(spaced[1..], IsWordDelimiter(spaced[0]));
      assert spaced[0] == s[0];
      assert IsLower(s[0]);
      LowerUpper(s[0]);
      RemoveCharFirst(UcWordsFrom(spaced, true), UcWordsFrom(spaced, false), ' ');
    }
  }

  /** A PascalCase word: ASCII letters, an upper-case first letter, and no
      two upper-case letters next to each other (`UserLog`). */
  predicate PascalWord(s: string) {
    Letters(s) && |s| > 0 && IsUpper(s[0]) && NoDoubleUpper(s)
  }

  /** Every capital lower-cased and preceded by `_`. */
  function Underscored(s: string): (r: string)
    ensures NoUpper(r)
  {
    if s == [] then []
    else if IsUpper(s[0]) then ['_', Lower(s[0])] + Underscored(s[1..])
    else [s[0]] + Underscored(s[1..])
  }

  /** Inside a camel word, snakeCase puts `_` before every capital and
      lower-cases it. */
  lemma {:induction false} SnakeCamel(s: string)
    requires CamelWord(s)
    ensures SnakeFrom(s, false) == Underscored(s)
    decreases |s|
  {
    if s == [] {
    } else if |s| >= 2 && IsLower(s[0]) && IsUpper(s[1]) {
      assert |s| > 2 ==> !IsUpper(s[2]);
      CamelSuffix(s, 2);
      SnakeCamel(s[2..]);
      assert s[1..][1..] == s[2..];
      assert Underscored(s[1..]) == ['_', Lower(s[1])] + Underscored(s[2..]);
      assert Underscored(s) == [s[0]] + Underscored(s[1..]);
    } else {
      CamelSuffix(s, 1);
      SnakeCamel(s[1..]);
      assert Underscored(s) == [s[0]] + Underscored(s[1..]);
    }
  }

  /** snakeCase of a PascalCase word: the first letter lower-cased, `_`
      before every later capital, each capital lower-cased; a second
      snakeCase changes nothing. `UserLog` becomes `user_log`. */
  lemma SnakePascal(w: string)
    requires PascalWord(w)
    ensures SnakeCase(w) == [Lower(w[0])] + Underscored(w[1..])
    ensures SnakeCase(SnakeCase(w)) == SnakeCase(w)
  {
    assert Letters(w[1..]);
    assert |w| > 1 ==> !IsUpper(w[1]);
    CamelSuffix(w, 1);
    SnakeCamel(w[1..]);
    var r := [Lower(w[0])] + Underscored(w[1..]);
    assert NoUpper(r) by {
      assert forall i :: 1 <= i < |r| ==> r[i] == Underscored(w[1..])[i - 1];
    }
    SnakeCaseNoUpper(r, true);
  }

  /** Snake form of a camel word read with the start flag on equals the one
      with the flag off, because a camel word starts lower-case. */
  lemma SnakeNotAtStart(s: string)
    requires |s| > 0 && IsLower(s[0])
    ensures SnakeFrom(s, true) == SnakeFrom(s, false)
  {
  }

  /** The snake form of a camel word with its underscores read as spaces: a
      space before each upper-case letter, and that letter lower-cased. */
  function Spaced(s: string): string
  {
    if s == [] then []
    else if IsUpper(s[0]) then [' ', Lower(s[0])] + Spaced(s[1..])
    else [s[0]] + Spaced(s[1..])
  }

  lemma {:induction false} SnakeShape(s: string)
    requires CamelWord(s)
    ensures ReplaceChar(SnakeFrom(s, false), '_', ' ') == Spaced(s)
    decreases |s|
  {
    if s == [] {
    } else if |s| >= 2 && IsLower(s[0]) && IsUpper(s[1]) {
      var rest := s[2..];
      assert |s| > 2 ==> !IsUpper(s[2]);
      CamelSuffix(s, 2);
      SnakeShape(rest);
      assert SnakeFrom(s, false) == [s[0], '_', Lower(s[1])] + SnakeFrom(rest, false);
      ReplaceCharConcat([s[0], '_', Lower(s[1])], SnakeFrom(rest, false));
      ReplaceCharCons(s[0], ['_', Lower(s[1])]);
      ReplaceCharCons('_', [Lower(s[1])]);
      ReplaceCharCons(Lower(s[1]), []);
      assert s[1..][1..] == rest;
      assert Spaced(s[1..]) == [' ', Lower(s[1])] + Spaced(rest);
      assert Spaced(s) == [s[0]] + Spaced(s[1..]);
    } else {
      var rest := s[1..];
      CamelSuffix(s, 1);
      SnakeShape(rest);
      assert SnakeFrom(s, false) == [s[0]] + SnakeFrom(rest, false);
      ReplaceCharConcat([s[0]], SnakeFrom(rest, false));
      ReplaceCharCons(s[0], []);
    }
  }

  lemma ReplaceCharCons(c: char, t: string)
    ensures ReplaceChar([c] + t, '_', ' ') == [if c == '_' then ' ' else c] + ReplaceChar(t, '_', ' ')
  {
    assert ([c] + t)[1..] == t;
  }

  lemma UcWordsCons(c: char, t: string, p: bool)
    ensures UcWordsFrom([c] + t, p) == [if p then Upper(c) else c] + UcWordsFrom(t, IsWordDelimiter(c))
  {
    assert ([c] + t)[1..] == t;
  }

  lemma {:induction false} ReplaceCharConcat(x: string, y: string)
    ensures ReplaceChar(x + y, '_', ' ') == ReplaceChar(x, '_', ' ') + ReplaceChar(y, '_', ' ')
  {
    if x == [] {
      assert x + y == y;
    } else {
      assert (x + y)[1..] == x[1..] + y;
      ReplaceCharConcat(x[1..], y);
    }
  }

  /** The camel word with a space before each upper-case letter, letters kept. */
  function Respaced(s: string): string
  {
    if s == [] then []
    else if IsUpper(s[0]) then [' ', s[0]] + Respaced(s[1..])
    else [s[0]] + Respaced(s[1..])
  }

  /** ucwords on a space and a lower-cased capital restores the capital. */
  lemma UcWordsAfterSpace(c: char, sp: string)
    requires IsUpper(c)
    ensures UcWordsFrom([' '] + ([Lower(c)] + sp), false) == [' ', c] + UcWordsFrom(sp, false)
  {
    var tail := [Lower(c)] + sp;
    UcWordsCons(' ', tail, false);
    UcWordsCons(Lower(c), sp, true);
    assert !IsWordDelimiter(Lower(c));
    assert Upper(Lower(c)) == c;
  }

  /** ucwords keeps a letter that follows no delimiter. */
  lemma UcWordsAfterLetter(c: char, sp: string)
    requires IsLower(c) || IsUpper(c)
    ensures UcWordsFrom([c] + sp, false) == [c] + UcWordsFrom(sp, false)
  {
    UcWordsCons(c, sp, false);
    assert !IsWordDelimiter(c);
  }

  /** The first letter of Spaced and Respaced. */
  lemma SpacedCons(s: string)
    requires s != []
    ensures IsUpper(s[0]) ==> Spaced(s) == [' '] + ([Lower(s[0])] + Spaced(s[1..]))
    ensures IsUpper(s[0]) ==> Respaced(s) == [' ', s[0]] + Respaced(s[1..])
    ensures !IsUpper(s[0]) ==> Spaced(s) == [s[0]] + Spaced(s[1..])
    ensures !IsUpper(s[0]) ==> Respaced(s) == [s[0]] + Respaced(s[1..])
  {
  }

  /** One letter of the induction for UcWordsRespaced. */
  lemma UcWordsRespacedStep(s: string)
    requires s != [] && (IsLower(s[0]) || IsUpper(s[0]))
    requires UcWordsFrom(Spaced(s[1..]), false) == Respaced(s[1..])
    ensures UcWordsFrom(Spaced(s), false) == Respaced(s)
  {
    SpacedCons(s);
    if IsUpper(s[0]) {
      UcWordsAfterSpace(s[0], Spaced(s[1..]));
    } else {
      UcWordsAfterLetter(s[0], Spaced(s[1..]));
    }
  }

  lemma {:induction false} UcWordsRespaced(s: string)
    requires Letters(s)
    ensures UcWordsFrom(Spaced(s), false) == Respaced(s)
    decreases |s|
  {
    if s != [] {
      assert Letters(s[1..]);
      UcWordsRespaced(s[1..]);
      UcWordsRespacedStep(s);
    }
  }

  /** Removing spaces drops a space in front of a letter and keeps the letter. */
  lemma RemoveSpaceBefore(c: char, y: string)
    requires c != ' '
    ensures RemoveChar([' ', c] + y, ' ') == [c] + RemoveChar(y, ' ')
    ensures RemoveChar([c] + y, ' ') == [c] + RemoveChar(y, ' ')
  {
    RemoveCharConcat([' ', c], y, ' ');
    RemoveCharConcat([c], y, ' ');
    RemoveCharConcat([' '], [c], ' ');
  }

  lemma {:induction false} RemoveSpacesRestores(s: string, r: string)
    requires Letters(s) && r == Respaced(s)
    ensures RemoveChar(r, ' ') == s
    decreases |s|
  {
    if s != [] {
      var rest := s[1..];
      assert Letters(rest);
      RemoveSpacesRestores(rest, Respaced(rest));
      SpacedCons(s);
      RemoveSpaceBefore(s[0], Respaced(rest));
      assert s == [s[0]] + rest;
    }
  }

  lemma RemoveCharFirst(x: string, y: string, c: char)
    requires |x| > 0 && |y| > 0 && x[1..] == y[1..] && x[0] != c && y[0] != c
    ensures RemoveChar(x, c) == [x[0]] + RemoveChar(y, c)[1..]
  {
    assert RemoveChar(x, c) == [x[0]] + RemoveChar(x[1..], c);
    assert RemoveChar(y, c) == [y[0]] + RemoveChar(y[1..], c);
  }

  /** ucfirst. */
  function UcFirst(s: string): (r: string)
    ensures |r| == |s|
    ensures |s| > 0 ==> r[0] == Upper(s[0]) && r[1..] == s[1..]
  {
    if s == [] then [] else [Upper(s[0])] + s[1..]
  }

  /** explode: the pieces of s between occurrences of the separator; there is
      always at least one piece, and no piece contains the separator. */
  function Split(s: string, sep: char): (r: seq<string>)
    ensures |r| >= 1
    ensures forall i :: 0 <= i < |r| ==> sep !in r[i]
  {
    if s == [] then [""]
    else
      var rest := Split(s[1..], sep);
      if s[0] == sep then [""] + rest else [[s[0]] + rest[0]] + rest[1..]
  }

  /** implode. */
  function Join(parts: seq<string>, sep: char): string
    requires |parts| >= 1
  {
    if |parts| == 1 then parts[0] else parts[0] + [sep] + Join(parts[1..], sep)
  }

  /** Joining the pieces with the separator gives back the string. */
  lemma {:induction false} JoinSplit(s: string, sep: char)
    ensures Join(Split(s, sep), sep) == s
  {
    if s != [] {
      JoinSplit(s[1..], sep);
      var rest := Split(s[1..], sep);
      if s[0] == sep {
        assert Split(s, sep)[1..] == rest;
      } else {
        var r := Split(s, sep);
        assert r[0] == [s[0]] + rest[0];
        if |rest| > 1 {
          assert r[1..] == rest[1..];
          assert Join(rest, sep) == rest[0] + [sep] + Join(rest[1..], sep);
        }
      }
    }
  }

  /** A string without the separator is one piece. */
  lemma {:induction false} SplitNoSeparator(s: string, sep: char)
    requires sep !in s
    ensures Split(s, sep) == [s]
  {
    if s != [] {
      assert sep !in s[1..];
      SplitNoSeparator(s[1..], sep);
      assert s[0] in s;
      assert [s[0]] + s[1..] == s;
    }
  }

  /** There is exactly one piece when the separator does not occur. */
  lemma SplitSingle(s: string, sep: char)
    ensures |Split(s, sep)| == 1 <==> sep !in s
  {
    if sep !in s {
      SplitNoSeparator(s, sep);
    } else if |Split(s, sep)| == 1 {
      JoinSplit(s, sep);
    }
  }

  /** Appending a separator and a piece without one adds that piece. */
  lemma {:induction false} SplitAppend(x: string, y: string, sep: char)
    requires sep !in y
    ensures Split(x + [sep] + y, sep) == Split(x, sep) + [y]
  {
    if x == [] {
      SplitNoSeparator(y, sep);
      assert x + [sep] + y == [sep] + y;
      assert ([sep] + y)[1..] == y;
    } else {
      SplitAppend(x[1..], y, sep);
      assert (x + [sep] + y)[1..] == x[1..] + [sep] + y;
    }
  }

  /** Prepending a piece without the separator, and a separator, adds that
      piece in front. */
  lemma {:induction false} SplitPrepend(x: string, y: string, sep: char)
    requires sep !in x
    ensures Split(x + [sep] + y, sep) == [x] + Split(y, sep)
  {
    if x == [] {
      assert x + [sep] + y == [sep] + y;
      assert ([sep] + y)[1..] == y;
    } else {
      assert sep !in x[1..];
      SplitPrepend(x[1..], y, sep);
      assert (x + [sep] + y)[1..] == x[1..] + [sep] + y;
      assert x[0] in x;
      assert [x[0]] + x[1..] == x;
    }
  }

  /** end(explode(sep, s)): the text after the last separator. */
  function LastSegment(s: string, sep: char): (r: string)
    ensures sep !in r
  {
    var parts := Split(s, sep);
    parts[|parts| - 1]
  }

  /** explode(sep, s)[0]: the text before the first separator. */
  function FirstSegment(s: string, sep: char): (r: string)
    ensures sep !in r
  {
    Split(s, sep)[0]
  }

  /** The last segment of a qualified name `t.f` is `f`. */
  lemma LastSegmentQualified(t: string, f: string, sep: char)
    requires sep !in f
    ensures LastSegment(t + [sep] + f, sep) == f
  {
    SplitAppend(t, f, sep);
  }

  /** The last segment ends the string: s is what comes before it, a
      separator, and the segment, or the segment alone. */
  lemma LastSegmentIsSuffix(s: string, sep: char)
    ensures var r := LastSegment(s, sep);
      |r| <= |s| && s[|s| - |r|..] == r && (|r| < |s| ==> s[|s| - |r| - 1] == sep)
  {
    var parts := Split(s, sep);
    JoinSplit(s, sep);
    JoinLast(parts, sep);
  }

  lemma {:induction false} JoinLast(parts: seq<string>, sep: char)
    requires |parts| >= 1
    ensures var j := Join(parts, sep); var r := parts[|parts| - 1];
      |r| <= |j| && j[|j| - |r|..] == r && (|parts| > 1 ==> |r| < |j| && j[|j| - |r| - 1] == sep)
  {
    if |parts| > 1 {
      JoinLast(parts[1..], sep);
    }
  }

  /** PHP basename on a `/` path: trailing slashes are ignored and the last
      component is returned. */
  function BaseName(p: string): (r: string)
    ensures '/' !in r
  {
    if p != [] && p[|p| - 1] == '/' then BaseName(p[..|p| - 1]) else LastSegment(p, '/')
  }

  /** `basename(str_replace('\\', '/', cls))`: a class name without its
      namespace. */
  function ClassBaseName(cls: string): (r: string)
    ensures '/' !in r && '\\' !in r
  {
    var r := BaseName(ReplaceChar(cls, '\\', '/'));
    assert '\\' !in r by {
      if '\\' in r { BaseNameKeeps(ReplaceChar(cls, '\\', '/'), '\\'); }
    }
    r
  }

  /** basename only removes characters. */
  lemma {:induction false} BaseNameKeeps(p: string, c: char)
    requires c in BaseName(p)
    ensures c in p
    decreases |p|
  {
    if p != [] && p[|p| - 1] == '/' {
      BaseNameKeeps(p[..|p| - 1], c);
    } else {
      LastSegmentIsSuffix(p, '/');
      var r := LastSegment(p, '/');
      var i :| 0 <= i < |r| && r[i] == c;
      assert p[|p| - |r| + i] == c;
    }
  }

  /** A name with no slash is its own base name; in particular basename is
      idempotent. */
  lemma BaseNamePlain(p: string)
    requires '/' !in p
    ensures BaseName(p) == p
  {
    SplitNoSeparator(p, '/');
    if p != [] { assert p[|p| - 1] in p; }
  }

  lemma BaseNameIdempotent(p: string)
    ensures BaseName(BaseName(p)) == BaseName(p)
  {
    BaseNamePlain(BaseName(p));
  }

  /** The base name of a namespaced class `N\\C` is `C`. */
  lemma ClassBaseNameQualified(ns: string, c: string)
    requires '\\' !in c && '/' !in c && '/' !in ns && c != ""
    ensures ClassBaseName(ns + "\\" + c) == c
  {
    var p := ReplaceChar(ns + "\\" + c, '\\', '/');
    ReplaceCharNoop(c, '\\', '/');
    ReplaceCharAppend(ns + "\\", c, '\\', '/');
    ReplaceCharAppend(ns, "\\", '\\', '/');
    assert ReplaceChar("\\", '\\', '/') == "/";
    var q := ReplaceChar(ns, '\\', '/');
    assert p == q + ['/'] + c;
    assert p[|p| - 1] == c[|c| - 1];
    assert c[|c| - 1] in c;
    LastSegmentQualified(q, c, '/');
  }

  /** A base name is its own base name. */
  lemma ClassBaseNameIdempotent(cls: string)
    ensures ClassBaseName(ClassBaseName(cls)) == ClassBaseName(cls)
  {
    var b := ClassBaseName(cls);
    ReplaceCharNoop(b, '\\', '/');
    BaseNamePlain(b);
  }

  lemma {:induction false} ReplaceCharNoop(s: string, from: char, to: char)
    requires from !in s
    ensures ReplaceChar(s, from, to) == s
  {
    if s != [] {
      assert from !in s[1..];
      ReplaceCharNoop(s[1..], from, to);
    }
  }

  lemma {:induction false} ReplaceCharAppend(x: string, y: string, from: char, to: char)
    ensures ReplaceChar(x + y, from, to) == ReplaceChar(x, from, to) + ReplaceChar(y, from, to)
  {
    if x == [] {
      assert x + y == y;
    } else {
      assert (x + y)[1..] == x[1..] + y;
      ReplaceCharAppend(x[1..], y, from, to);
    }
  }
}
