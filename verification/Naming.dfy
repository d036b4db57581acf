/** Coercing any string into a Prometheus name fragment (internal/metrics/naming.go). As in
    Identity, case folding beyond ASCII is a parameter. */
module Naming {
  import opened Common
  import opened Identity

  predicate IsDigit(c: char) { '0' <= c <= '9' }

  predicate IsWord(c: char) { 'a' <= c <= 'z' || IsDigit(c) }

  ghost predicate AllWord(s: string) { forall i :: 0 <= i < |s| ==> IsWord(s[i]) }

  /** The maximal runs of letters and digits. */
  function Words(s: string): seq<string> {
    if s == [] then []
    else
      var init, c := s[..|s| - 1], s[|s| - 1];
      var before := Words(init);
      if !IsWord(c) then before
      else if init != [] && IsWord(init[|init| - 1]) && before != [] then before[..|before| - 1] + [before[|before| - 1] + [c]]
      else before + [[c]]
  }

  function Join(ws: seq<string>): string {
    if ws == [] then ""
    else if |ws| == 1 then ws[0]
    else Join(ws[..|ws| - 1]) + "_" + ws[|ws| - 1]
  }

  const UNKNOWN := "unknown"

  function Finished(out: string): string {
    if out == "" then UNKNOWN else if IsDigit(out[0]) then "_" + out else out
  }

  /** What a sanitised name amounts to: its words, joined by single underscores, behind one
      more if it would otherwise start with a digit; "unknown" if it has none. */
  function Sanitized(fold: char -> char, s: string): string {
    Finished(Join(Words(MapChars(fold, s))))
  }

  // ---- The loop ----------------------------------------------------------------------

  /** strings.Trim of a single character. */
  function Trim(s: string, c: char): string {
    if s != [] && s[|s| - 1] == c then Trim(s[..|s| - 1], c)
    else if s != [] && s[0] == c then Trim(s[1..], c)
    else s
  }

  ghost predicate WellFormedWords(ws: seq<string>) {
    forall i :: 0 <= i < |ws| ==> ws[i] != "" && AllWord(ws[i])
  }

  lemma {:induction false} WordsAreWords(s: string)
    ensures WellFormedWords(Words(s))
    ensures s != [] && IsWord(s[|s| - 1]) ==> Words(s) != []
  {
    if s != [] { WordsAreWords(s[..|s| - 1]); }
  }

  /** A join starts and ends in a word. */
  lemma {:induction false} JoinEnds(ws: seq<string>)
    requires WellFormedWords(ws)
    ensures (Join(ws) == "") == (ws == [])
    ensures ws != [] ==> IsWord(Join(ws)[0]) && IsWord(Join(ws)[|Join(ws)| - 1])
  {
    if |ws| > 1 { JoinEnds(ws[..|ws| - 1]); }
  }

  lemma JoinAppend(ws: seq<string>, w: string)
    ensures Join(ws + [w]) == if ws == [] then w else Join(ws) + "_" + w
  {
    assert (ws + [w])[..|ws|] == ws;
  }

  /** One more letter in the last word. */
  lemma JoinExtend(ws: seq<string>, w: string, c: char)
    ensures Join(ws + [w + [c]]) == Join(ws + [w]) + [c]
  {
    JoinAppend(ws, w);
    JoinAppend(ws, w + [c]);
    hide Join;
    if ws != [] {
      assert Join(ws) + "_" + (w + [c]) == Join(ws) + "_" + w + [c];
    }
  }

  /** No word is under way. */
  predicate Pending(s: string) { Words(s) == [] || !IsWord(s[|s| - 1]) }

  /** The builder so far: the words, and an underscore once the last of them is over. */
  function Built(s: string): string {
    Join(Words(s)) + (if Words(s) != [] && Pending(s) then "_" else "")
  }

  lemma BuiltIs(s: string)
    ensures Words(s) == [] ==> Pending(s) && Built(s) == "" && Join(Words(s)) == ""
    ensures Words(s) != [] && Pending(s) ==> Built(s) == Join(Words(s)) + "_"
    ensures !Pending(s) ==> Built(s) == Join(Words(s))
  {
  }

  /** How one more character changes the words. */
  lemma WordsTurn(s: string, c: char)
    ensures var ws, now := Words(s), Words(s + [c]);
            if !IsWord(c) then now == ws
            else if Pending(s) then now == ws + [[c]]
            else ws != [] && now == ws[..|ws| - 1] + [ws[|ws| - 1] + [c]]
    ensures Pending(s + [c]) <==> !IsWord(c)
  {
    assert (s + [c])[..|s|] == s;
    WordsAreWords(s);
  }

  lemma BuiltTurns(s: string, c: char)
    ensures Built(s + [c]) == if IsWord(c) then Built(s) + [c] else if Pending(s) then Built(s) else Built(s) + "_"
    ensures Pending(s + [c]) <==> !IsWord(c)
  {
    hide *;
    WordsTurn(s, c);
    BuiltIs(s);
    BuiltIs(s + [c]);
    var ws := Words(s);
    if IsWord(c) {
      if Pending(s) {
        JoinAppend(ws, [c]);
      } else {
        JoinExtend(ws[..|ws| - 1], ws[|ws| - 1], c);
        assert ws[..|ws| - 1] + [ws[|ws| - 1]] == ws;
      }
    }
  }

  lemma TrimmedBuilt(s: string)
    ensures Trim(Built(s), '_') == Join(Words(s))
  {
    WordsAreWords(s);
    JoinEnds(Words(s));
    var joined := Join(Words(s));
    assert Trim(joined, '_') == joined;
    assert (joined + "_")[..|joined|] == joined;
  }

  method SanitizeName(fold: char -> char, s: string) returns (out: string)
    ensures out == Sanitized(fold, s)
  {
    var lower := MapChars(fold, s);
    var b := "";
    var lastUnderscore := true;
    for i := 0 to |lower|
      invariant b == Built(lower[..i])
      invariant lastUnderscore <==> Pending(lower[..i])
    {
      hide Words, Join, Built, Pending;
      var r := lower[i];
      assert lower[..i + 1] == lower[..i] + [r];
      BuiltTurns(lower[..i], r);
      if IsWord(r) {
        b := b + [r];
        lastUnderscore := false;
      } else {
        if !lastUnderscore { b := b + "_"; }
        lastUnderscore := true;
      }
    }
    assert lower[..|lower|] == lower;
    TrimmedBuilt(lower);
    out := Trim(b, '_');
    if out == "" { return UNKNOWN; }
    if IsDigit(out[0]) { out := "_" + out; }
  }

  // ---- What a name looks like --------------------------------------------------------

  /** [a-z_][a-z0-9_]*, with no two underscores in a row and none at the end. */
  ghost predicate IsName(s: string) {
    && s != "" && !IsDigit(s[0])
    && (forall i :: 0 <= i < |s| ==> IsWord(s[i]) || s[i] == '_')
    && (forall i :: 0 <= i < |s| - 1 ==> !(s[i] == '_' && s[i + 1] == '_'))
    && s[|s| - 1] != '_'
  }

  lemma {:induction false} JoinShape(ws: seq<string>)
    requires WellFormedWords(ws)
    ensures forall i :: 0 <= i < |Join(ws)| ==> IsWord(Join(ws)[i]) || Join(ws)[i] == '_'
    ensures forall i :: 0 <= i < |Join(ws)| - 1 ==> !(Join(ws)[i] == '_' && Join(ws)[i + 1] == '_')
  {
    if |ws| > 1 {
      var init, last := ws[..|ws| - 1], ws[|ws| - 1];
      JoinShape(init);
      JoinEnds(init);
      assert last != "" && AllWord(last);
      hide Join;
      assert Join(ws) == Join(init) + "_" + last by { JoinLast(ws); }
    }
  }

  lemma JoinLast(ws: seq<string>)
    requires |ws| > 1
    ensures Join(ws) == Join(ws[..|ws| - 1]) + "_" + ws[|ws| - 1]
  {
  }

  /** Whatever the input, the result is a valid name. */
  lemma AlwaysAName(fold: char -> char, s: string)
    ensures IsName(Sanitized(fold, s))
  {
    var ws := Words(MapChars(fold, s));
    WordsAreWords(MapChars(fold, s));
    JoinShape(ws);
    JoinEnds(ws);
  }

  // ---- Twice is once -----------------------------------------------------------------

  lemma PendingAfterBreak(s: string)
    requires s == "" || !IsWord(s[|s| - 1])
    ensures Pending(s)
  {
    hide IsWord;
  }

  lemma WordGrows(s: string, w: string, c: char)
    requires w != "" && IsWord(w[|w| - 1]) && IsWord(c) && Words(s + w) == Words(s) + [w]
    ensures Words(s + (w + [c])) == Words(s) + [w + [c]]
  {
    hide *;
    WordsTurn(s + w, c);
    WordsTurn(s + w[..|w| - 1], w[|w| - 1]);
    assert s + w[..|w| - 1] + [w[|w| - 1]] == s + w;
    assert (s + w) + [c] == s + (w + [c]);
    var ws := Words(s);
    assert (ws + [w])[..|ws|] == ws && (ws + [w])[|ws|] == w;
  }

  lemma InitWord(w: string)
    requires |w| > 1 && AllWord(w)
    ensures var init := w[..|w| - 1];
            AllWord(init) && init != "" && IsWord(init[|init| - 1]) && IsWord(w[|w| - 1]) && w == init + [w[|w| - 1]]
  {
  }

  lemma {:induction false} WordsAfterBreak(s: string, w: string)
    requires (s == "" || !IsWord(s[|s| - 1])) && w != "" && AllWord(w)
    ensures Words(s + w) == Words(s) + [w]
  {
    if |w| == 1 {
      PendingAfterBreak(s);
      hide Words, Pending;
      WordsTurn(s, w[0]);
      assert [w[0]] == w;
    } else {
      InitWord(w);
      hide *;
      WordsAfterBreak(s, w[..|w| - 1]);
      WordGrows(s, w[..|w| - 1], w[|w| - 1]);
    }
  }

  lemma WordsBeforeBreak(s: string)
    ensures Words(s + "_") == Words(s)
  {
    assert (s + "_")[..|s|] == s;
  }

  lemma WordsOfFew(ws: seq<string>)
    requires WellFormedWords(ws) && |ws| <= 1
    ensures Words(Join(ws)) == ws
  {
    if |ws| == 1 {
      WordsAfterBreak("", ws[0]);
      assert "" + ws[0] == ws[0];
    }
  }

  lemma Apart(ws: seq<string>)
    requires WellFormedWords(ws) && |ws| > 1
    ensures WellFormedWords(ws[..|ws| - 1]) && ws[|ws| - 1] != "" && AllWord(ws[|ws| - 1])
    ensures ws == ws[..|ws| - 1] + [ws[|ws| - 1]] && !IsWord('_')
  {
  }

  lemma {:induction false} WordsOfJoin(ws: seq<string>)
    requires WellFormedWords(ws)
    ensures Words(Join(ws)) == ws
  {
    hide *;
    if |ws| <= 1 {
      WordsOfFew(ws);
    } else {
      Apart(ws);
      JoinLast(ws);
      var joined := Join(ws[..|ws| - 1]);
      WordsOfJoin(ws[..|ws| - 1]);
      WordsBeforeBreak(joined);
      assert (joined + "_")[|joined + "_"| - 1] == '_';
      WordsAfterBreak(joined + "_", ws[|ws| - 1]);
    }
  }

  lemma {:induction false} LeadingUnderscore(s: string)
    ensures Words("_" + s) == Words(s)
  {
    if s == "" {
      assert "_" + s == "_";
      assert "_"[..0] == "";
    } else {
      LeadingUnderscore(s[..|s| - 1]);
      assert ("_" + s)[..|s|] == "_" + s[..|s| - 1];
      WordsAreWords(s[..|s| - 1]);
    }
  }

  /** Sanitising keeps every word, in order. */
  lemma WordsKept(fold: char -> char, s: string)
    ensures var ws := Words(MapChars(fold, s));
            Words(Sanitized(fold, s)) == if ws == [] then [UNKNOWN] else ws
  {
    var ws := Words(MapChars(fold, s));
    WordsAreWords(MapChars(fold, s));
    WordsOfJoin(ws);
    JoinEnds(ws);
    LeadingUnderscore(Join(ws));
    WordsAfterBreak("", UNKNOWN);
    assert "" + UNKNOWN == UNKNOWN;
  }

  /** Applying it twice equals applying it once. */
  lemma Idempotent(fold: char -> char, s: string)
    requires FoldsAscii(fold)
    ensures Sanitized(fold, Sanitized(fold, s)) == Sanitized(fold, s)
  {
    var out := Sanitized(fold, s);
    AlwaysAName(fold, s);
    assert MapChars(fold, out) == out;
    WordsKept(fold, s);
    var ws := Words(MapChars(fold, s));
    WordsAreWords(MapChars(fold, s));
    JoinEnds(ws);
  }

  // ---- What stays, letter for letter -------------------------------------------------------

  /** The letters and digits of a text, in order. */
  function LettersOf(s: string): string {
    if s == "" then "" else
      LettersOf(s[..|s| - 1]) + (var c := s[|s| - 1]; if 'a' <= c <= 'z' || '0' <= c <= '9' then [c] else "")
  }

  lemma {:induction false} LettersOfAppend(s: string, t: string)
    ensures LettersOf(s + t) == LettersOf(s) + LettersOf(t)
  {
    if t == "" {
      assert s + t == s;
    } else {
      LettersOfAppend(s, t[..|t| - 1]);
      assert (s + t)[..|s + t| - 1] == s + t[..|t| - 1];
    }
  }

  lemma {:induction false} LettersOfWord(w: string)
    requires AllWord(w)
    ensures LettersOf(w) == w
  {
    if w != "" { LettersOfWord(w[..|w| - 1]); }
  }

  lemma LettersOfBuilt(s: string, c: char)
    ensures LettersOf(Built(s + [c])) == LettersOf(Built(s)) + LettersOf([c])
  {
    BuiltTurns(s, c);
    LettersOfAppend(Built(s), [c]);
    LettersOfAppend(Built(s), "_");
    assert [c][..0] == "" && "_"[..0] == "";
    hide Built, Pending;
    assert LettersOf([c]) == if IsWord(c) then [c] else "";
    assert LettersOf("_") == "";
  }

  lemma {:induction false} BuiltKeepsLetters(s: string)
    ensures LettersOf(Built(s)) == LettersOf(s)
  {
    hide Built;
    if s == "" {
      BuiltIs("");
      NoWords();
    } else {
      var init, c := s[..|s| - 1], s[|s| - 1];
      BuiltKeepsLetters(init);
      LettersOfBuilt(init, c);
      LettersOfAppend(init, [c]);
      assert init + [c] == s;
    }
  }

  lemma NoWords()
    ensures Words("") == []
  {
  }

  /** Sanitising keeps every lower-case letter and digit of the folded text, and no other
      character of it; and a text without any becomes "unknown". */
  lemma LettersKept(fold: char -> char, s: string)
    ensures var letters := LettersOf(MapChars(fold, s));
            LettersOf(Sanitized(fold, s)) == if letters == "" then "unknown" else letters
  {
    var lower := MapChars(fold, s);
    var ws := Words(lower);
    WordsAreWords(lower);
    JoinEnds(ws);
    BuiltIs(lower);
    BuiltKeepsLetters(lower);
    LettersOfAppend(Join(ws), "_");
    LettersOfAppend("_", Join(ws));
    LettersOfWord(UNKNOWN);
    assert LettersOf("_") == "" by { assert "_"[..0] == ""; }
    if ws != [] { LetterThere(Join(ws)); }
    hide Join, Words, Built;
  }

  lemma LetterThere(s: string)
    requires s != "" && IsWord(s[0])
    ensures LettersOf(s) != ""
  {
    LettersOfAppend([s[0]], s[1..]);
    assert [s[0]] + s[1..] == s && [s[0]][..0] == "";
  }

  /** A name as metrics have them: lower-case letters and digits in runs, single underscores
      between runs, and one in front exactly if a digit would otherwise come first. */
  ghost predicate IsProper(s: string) {
    && s != "" && s[|s| - 1] != '_'
    && (forall i :: 0 <= i < |s| ==> 'a' <= s[i] <= 'z' || '0' <= s[i] <= '9' || s[i] == '_')
    && (forall i :: 0 <= i < |s| - 1 ==> !(s[i] == '_' && s[i + 1] == '_'))
    && !('0' <= s[0] <= '9') && (s[0] == '_' ==> |s| > 1 && '0' <= s[1] <= '9')
  }

  /** The builder writes a tidy text out as it is. */
  lemma {:induction false} BuiltAsItIs(s: string)
    requires forall i :: 0 <= i < |s| ==> IsWord(s[i]) || s[i] == '_'
    requires forall i :: 0 <= i < |s| - 1 ==> !(s[i] == '_' && s[i + 1] == '_')
    requires s != "" ==> s[0] != '_'
    ensures Built(s) == s && (s != "" ==> (Pending(s) <==> s[|s| - 1] == '_'))
  {
    hide Built, Pending;
    if s == "" {
      BuiltIs("");
      NoWords();
    } else {
      var init, c := s[..|s| - 1], s[|s| - 1];
      BuiltAsItIs(init);
      BuiltTurns(init, c);
      assert init + [c] == s;
      assert init != "" ==> init[|init| - 1] == s[|s| - 2];
      assert !IsWord('_');
    }
  }

  /** Proper names, and no others, are left exactly as they are. */
  lemma ProperNamesStand(fold: char -> char, s: string)
    requires FoldsAscii(fold)
    ensures Sanitized(fold, s) == s <==> IsProper(s)
  {
    if IsProper(s) {
      assert MapChars(fold, s) == s;
      var rest := if s[0] == '_' then s[1..] else s;
      BuiltAsItIs(rest);
      LeadingUnderscore(rest);
      assert s[0] == '_' ==> s == "_" + rest;
      BuiltIs(rest);
      WordsAreWords(rest);
    } else {
      AlwaysProper(fold, s);
    }
  }

  lemma AlwaysProper(fold: char -> char, s: string)
    ensures IsProper(Sanitized(fold, s))
  {
    var ws := Words(MapChars(fold, s));
    WordsAreWords(MapChars(fold, s));
    JoinShape(ws);
    JoinEnds(ws);
  }
}
