/** Canonical form of pass stories (crates/indras-crypto/src/pass_story.rs): the whitespace loop of normalize_slot and
    the null-delimited encoding of the slots. */
module PassStory {
  import opened Common

  // ---------------------------------------------------------------------
  // Whitespace
  // ---------------------------------------------------------------------

  /** char::is_whitespace: the Unicode White_Space property. */
  predicate IsWhitespace(c: char) {
    var n := c as int;
    || 0x09 <= n <= 0x0D || n == 0x20 || n == 0x85 || n == 0xA0 || n == 0x1680 || 0x2000 <= n <= 0x200A
    || n == 0x2028 || n == 0x2029 || n == 0x202F || n == 0x205F || n == 0x3000
  }

  /** The maximal runs of other characters, in order. */
  function Words(s: string): (r: seq<string>)
    ensures s != [] && !IsWhitespace(s[|s|-1]) ==> r != []
  {
    if s == [] then []
    else
      var n := |s| - 1;
      var front := Words(s[..n]);
      if IsWhitespace(s[n]) then front
      else if n == 0 || IsWhitespace(s[n-1]) then front + [[s[n]]]
      else front[..|front|-1] + [front[|front|-1] + [s[n]]]
  }

  function Join(ws: seq<string>): string {
    if ws == [] then [] else if |ws| == 1 then ws[0] else Join(ws[..|ws|-1]) + [' '] + ws[|ws|-1]
  }

  predicate IsWord(w: string) { w != [] && forall i :: 0 <= i < |w| ==> !IsWhitespace(w[i]) }

  lemma {:induction false} WordsAreWords(s: string)
    ensures forall i :: 0 <= i < |Words(s)| ==> IsWord(Words(s)[i])
  {
    if s != [] {
      var n := |s| - 1;
      var front := Words(s[..n]);
      WordsAreWords(s[..n]);
      if !IsWhitespace(s[n]) && n > 0 && !IsWhitespace(s[n-1]) {
        LongerWord(front[|front|-1], s[n]);
      }
    }
  }

  lemma LongerWord(w: string, c: char)
    requires IsWord(w) && !IsWhitespace(c)
    ensures IsWord(w + [c])
  {
  }

  /** Where the loop stands after reading s: a space is pending exactly when s has words and ends in whitespace. */
  function Scanned(s: string): string {
    Join(Words(s)) + if Words(s) != [] && IsWhitespace(s[|s|-1]) then [' '] else []
  }

  predicate EndsWithSpace(s: string) { s != [] && s[|s|-1] == ' ' }

  lemma {:induction false} JoinEndsInWord(ws: seq<string>)
    requires ws != [] && forall i :: 0 <= i < |ws| ==> IsWord(ws[i])
    ensures Join(ws) != [] && !EndsWithSpace(Join(ws))
  {
    var w := ws[|ws|-1];
    assert IsWord(w);
    assert Join(ws)[|Join(ws)|-1] == w[|w|-1];
  }

  /** One character more. */
  lemma ScanStep(s: string, c: char)
    ensures var r := Scanned(s);
            Scanned(s + [c]) ==
              if !IsWhitespace(c) then r + [c] else if r == [] || EndsWithSpace(r) then r else r + [' ']
  {
    var t := s + [c];
    assert t[..|s|] == s;
    WordsAreWords(s);
    if Words(s) != [] { JoinEndsInWord(Words(s)); }
    if !IsWhitespace(c) {
      if s == [] || IsWhitespace(s[|s|-1]) {
        assert Words(t)[..|Words(t)|-1] == Words(s);
      } else {
        JoinGrows(Words(s), c);
      }
    }
  }

  lemma JoinGrows(ws: seq<string>, c: char)
    requires ws != []
    ensures Join(ws[..|ws|-1] + [ws[|ws|-1] + [c]]) == Join(ws) + [c]
  {
    var n := |ws| - 1;
    var more := ws[..n] + [ws[n] + [c]];
    assert more[..n] == ws[..n];
    if n > 0 { assert (Join(ws[..n]) + [' '] + ws[n]) + [c] == Join(ws[..n]) + [' '] + (ws[n] + [c]); }
  }

  /** The loop of normalize_slot: the words of the input, separated by single spaces. */
  method CollapseWhitespace(s: string) returns (r: string)
    ensures r == Join(Words(s))
  {
    hide Words, Join;
    r := [];
    var prevWasSpace := true;
    NothingScanned();
    for i := 0 to |s|
      invariant r == Scanned(s[..i]) && (prevWasSpace <==> r == [] || EndsWithSpace(r))
    {
      hide Scanned;
      assert s[..i+1] == s[..i] + [s[i]];
      ScanStep(s[..i], s[i]);
      if IsWhitespace(s[i]) {
        if !prevWasSpace {
          r := r + [' '];
          prevWasSpace := true;
        }
      } else {
        r := r + [s[i]];
        prevWasSpace := false;
      }
    }
    assert s[..|s|] == s;
    TrimScanned(s);
    if EndsWithSpace(r) {
      r := r[..|r|-1];
    }
  }

  lemma NothingScanned()
    ensures Scanned([]) == []
  {
  }

  lemma TrimScanned(s: string)
    ensures var r := Scanned(s); Join(Words(s)) == if EndsWithSpace(r) then r[..|r|-1] else r
  {
    WordsAreWords(s);
    if Words(s) != [] { JoinEndsInWord(Words(s)); }
  }

  lemma WordBegins(s: string, c: char)
    requires (s == [] || IsWhitespace(s[|s|-1])) && !IsWhitespace(c)
    ensures Words(s + [c]) == Words(s) + [[c]]
  {
    hide IsWhitespace;
    assert (s + [c])[..|s|] == s;
  }

  lemma WordGrows(s: string, c: char)
    requires s != [] && !IsWhitespace(s[|s|-1]) && !IsWhitespace(c)
    ensures var f := Words(s); Words(s + [c]) == f[..|f|-1] + [f[|f|-1] + [c]]
  {
    hide IsWhitespace;
    var t := s + [c];
    assert t[..|t|-1] == s && t[|t|-1] == c && t[|t|-2] == s[|s|-1];
  }

  lemma {:induction false} WordsAppend(s: string, w: string)
    requires (s == [] || IsWhitespace(s[|s|-1])) && IsWord(w)
    ensures Words(s + w) == Words(s) + [w]
  {
    hide IsWhitespace, Words;
    var n := |w| - 1;
    if n == 0 {
      WordBegins(s, w[0]);
      assert w == [w[0]];
    } else {
      var v := w[..n];
      WordsAppend(s, v);
      WordGrows(s + v, w[n]);
      assert (s + v) + [w[n]] == s + w && v + [w[n]] == w;
      assert (Words(s) + [v])[..|Words(s)|] == Words(s);
    }
  }

  lemma SpaceAddsNothing(s: string)
    ensures Words(s + [' ']) == Words(s)
  {
    assert (s + [' '])[..|s|] == s;
  }

  /** Splitting undoes joining. */
  lemma {:induction false} WordsOfJoin(ws: seq<string>)
    requires forall i :: 0 <= i < |ws| ==> IsWord(ws[i])
    ensures Words(Join(ws)) == ws
  {
    hide IsWord, Words;
    if ws == [] {
      NoWords();
    } else {
      var n := |ws| - 1;
      if n == 0 {
        NoWords();
        WordsAppend([], ws[0]);
        assert [] + ws[0] == ws[0] && ws == [ws[0]];
      } else {
        WordsOfJoin(ws[..n]);
        SpaceAddsNothing(Join(ws[..n]));
        WordsAppend(Join(ws[..n]) + [' '], ws[n]);
        assert ws == ws[..n] + [ws[n]];
      }
    }
  }

  lemma NoWords()
    ensures Words([]) == []
  {
  }

  lemma SpaceEndsWords(s: string, c: char)
    requires IsWhitespace(c)
    ensures Words(s + [c]) == Words(s)
  {
    assert (s + [c])[..|s|] == s;
  }

  /** What words are: an empty text has none, a text without whitespace is one, and whitespace separates. */
  lemma {:induction false} WordsExactly(s: string, c: char, t: string)
    requires IsWhitespace(c)
    ensures Words([]) == [] && (IsWord(s) ==> Words(s) == [s])
    ensures Words(s + [c] + t) == Words(s) + Words(t)
    decreases |t|
  {
    hide IsWhitespace, Words;
    NoWords();
    if IsWord(s) {
      WordsAppend([], s);
      assert [] + s == s && [] + [s] == [s];
    }
    SpaceEndsWords(s, c);
    if t == [] {
      assert s + [c] + t == s + [c];
    } else {
      var n := |t| - 1;
      var u, d := t[..n], t[n];
      WordsExactly(s, c, u);
      var left := s + [c] + u;
      assert left + [d] == s + [c] + t && u + [d] == t;
      if IsWhitespace(d) {
        SpaceEndsWords(left, d);
        SpaceEndsWords(u, d);
      } else if u == [] || IsWhitespace(u[|u|-1]) {
        assert left[|left|-1] == if u == [] then c else u[|u|-1];
        WordBegins(left, d);
        WordBegins(u, d);
      } else {
        assert left[|left|-1] == u[|u|-1];
        WordGrows(left, d);
        WordGrows(u, d);
        SplitsLast(Words(s), Words(u), d);
      }
    }
  }

  lemma SplitsLast(a: seq<string>, b: seq<string>, d: char)
    requires b != []
    ensures var f := a + b; f[..|f|-1] + [f[|f|-1] + [d]] == a + (b[..|b|-1] + [b[|b|-1] + [d]])
  {
  }

  /** No leading, trailing or double space, and no other whitespace. */
  ghost predicate Tidy(s: string) {
    && (forall i :: 0 <= i < |s| && IsWhitespace(s[i]) ==> s[i] == ' ' && 0 < i < |s| - 1 && !IsWhitespace(s[i-1]) && !IsWhitespace(s[i+1]))
  }

  lemma {:induction false} JoinIsTidy(ws: seq<string>)
    requires forall i :: 0 <= i < |ws| ==> IsWord(ws[i])
    ensures Tidy(Join(ws)) && (ws != [] ==> Join(ws) != [] && !IsWhitespace(Join(ws)[0]) && !IsWhitespace(Join(ws)[|Join(ws)|-1]))
  {
    if |ws| == 1 {
      assert IsWord(ws[0]);
    } else if ws != [] {
      var n := |ws| - 1;
      JoinIsTidy(ws[..n]);
      assert IsWord(ws[n]);
      var a, w := Join(ws[..n]), ws[n];
      var t := a + [' '] + w;
      forall i | |a| < i < |t| ensures !IsWhitespace(t[i]) { assert t[i] == w[i - |a| - 1]; }
      forall i | 0 <= i < |t| && IsWhitespace(t[i])
        ensures t[i] == ' ' && 0 < i < |t| - 1 && !IsWhitespace(t[i-1]) && !IsWhitespace(t[i+1])
      {
        if i < |a| { assert t[i] == a[i]; }
      }
    }
  }

  /** Collapsing is idempotent, and its results are tidy. */
  lemma CollapseIsIdempotent(s: string)
    ensures Words(Join(Words(s))) == Words(s) && Tidy(Join(Words(s)))
  {
    WordsAreWords(s);
    WordsOfJoin(Words(s));
    JoinIsTidy(Words(s));
  }

  lemma {:induction false} TidyIsFixed(s: string)
    requires forall i :: 0 <= i < |s| && IsWhitespace(s[i]) ==> s[i] == ' ' && 0 < i && !IsWhitespace(s[i-1])
    ensures Scanned(s) == s
  {
    if s == [] {
      NothingScanned();
    } else {
      var n := |s| - 1;
      TidyIsFixed(s[..n]);
      assert s == s[..n] + [s[n]];
      ScanStep(s[..n], s[n]);
    }
  }

  /** Collapsing leaves a string alone exactly when it is tidy. */
  lemma FixedExactlyWhenTidy(s: string)
    ensures Join(Words(s)) == s <==> Tidy(s)
  {
    CollapseIsIdempotent(s);
    if Tidy(s) {
      TidyIsFixed(s);
      TrimScanned(s);
    }
  }

  // ---------------------------------------------------------------------
  // Slots
  // ---------------------------------------------------------------------

  const SLOTS := 23

  type Bytes = seq<byte>

  datatype StoryError = NullByteInSlot | EmptySlot(number: nat)

  datatype Outcome = Ok(canonical: Bytes) | Err(error: StoryError)

  /** The first slot at fault decides; a null byte is looked for before emptiness. */
  function FirstFault(slots: seq<Bytes>, from: nat): (r: Option<StoryError>)
    requires from <= |slots|
    ensures r.None? <==> forall i :: from <= i < |slots| ==> slots[i] != [] && 0 !in slots[i]
    decreases |slots| - from
  {
    if from == |slots| then None
    else if 0 in slots[from] then Some(NullByteInSlot)
    else if slots[from] == [] then Some(EmptySlot(from + 1))
    else FirstFault(slots, from + 1)
  }

  /** The slots before this one are neither empty nor do they contain a null byte. */
  ghost predicate CleanBefore(slots: seq<Bytes>, k: nat) {
    k <= |slots| && forall i :: 0 <= i < k ==> slots[i] != [] && 0 !in slots[i]
  }

  /** The reported fault is that of the first faulty slot, counted from one when it is empty. */
  lemma {:induction false} FirstFaultExactly(slots: seq<Bytes>, from: nat, k: nat)
    requires CleanBefore(slots, from) && k < |slots| && CleanBefore(slots, k) && (slots[k] == [] || 0 in slots[k])
    ensures FirstFault(slots, from) == Some(if 0 in slots[k] then NullByteInSlot else EmptySlot(k + 1))
    decreases |slots| - from
  {
    assert from <= k;
    if from < k { FirstFaultExactly(slots, from + 1, k); }
  }

  function Delimited(slots: seq<Bytes>): Bytes {
    if slots == [] then []
    else Delimited(slots[..|slots|-1]) + (if |slots| > 1 then [0] else []) + slots[|slots|-1]
  }

  /** canonical_encode. */
  method CanonicalEncode(slots: seq<Bytes>) returns (r: Outcome)
    requires |slots| == SLOTS
    ensures r == if FirstFault(slots, 0).Some? then Err(FirstFault(slots, 0).value) else Ok(Delimited(slots))
    ensures r.Ok? ==> Split(r.canonical) == slots
  {
    for i := 0 to SLOTS
      invariant FirstFault(slots, 0) == FirstFault(slots, i)
    {
      if 0 in slots[i] {
        return Err(NullByteInSlot);
      }
      if slots[i] == [] {
        return Err(EmptySlot(i + 1));
      }
    }
    var canonical := [];
    for i := 0 to SLOTS
      invariant canonical == Delimited(slots[..i])
    {
      assert slots[..i+1][..i] == slots[..i];
      if i > 0 {
        canonical := canonical + [0];
      }
      canonical := canonical + slots[i];
    }
    assert slots[..SLOTS] == slots;
    SplitUndoesDelimited(slots);
    return Ok(canonical);
  }

  /** The pieces between null bytes. */
  function Split(s: Bytes): (r: seq<Bytes>)
    ensures r != []
  {
    if s == [] then [[]]
    else
      var front, c := Split(s[..|s|-1]), s[|s|-1];
      if c == 0 then front + [[]] else front[..|front|-1] + [front[|front|-1] + [c]]
  }

  lemma SplitOneMore(s: Bytes, c: byte)
    requires c != 0
    ensures var f := Split(s); Split(s + [c]) == f[..|f|-1] + [f[|f|-1] + [c]]
  {
    assert (s + [c])[..|s|] == s;
  }

  lemma {:induction false} SplitAppend(s: Bytes, t: Bytes)
    requires 0 !in t
    ensures var f := Split(s); Split(s + t) == f[..|f|-1] + [f[|f|-1] + t]
  {
    hide Split;
    var f := Split(s);
    var k := |f| - 1;
    if t == [] {
      assert s + t == s && f[k] + t == f[k];
    } else {
      var n := |t| - 1;
      SplitAppend(s, t[..n]);
      assert t[n] in t;
      SplitOneMore(s + t[..n], t[n]);
      assert (s + t[..n]) + [t[n]] == s + t;
      assert (f[k] + t[..n]) + [t[n]] == f[k] + t;
    }
  }

  /** Splitting the encoding on null bytes gives the slots back. */
  lemma {:induction false} SplitUndoesDelimited(slots: seq<Bytes>)
    requires slots != [] && forall i :: 0 <= i < |slots| ==> 0 !in slots[i]
    ensures Split(Delimited(slots)) == slots
  {
    hide Split;
    var n := |slots| - 1;
    var last := slots[n];
    if n == 0 {
      SplitNothing();
      SplitAppend([], last);
      var f := Split([]);
      assert f == [[]] && f[0] == [] && f[0] + last == last;
      assert f[..0] + [f[0] + last] == [last] == slots;
      assert Delimited(slots) == [] + last;
    } else {
      var front := Delimited(slots[..n]);
      SplitUndoesDelimited(slots[..n]);
      SplitAtNull(front);
      SplitAppend(front + [0], last);
      assert Delimited(slots) == front + [0] + last;
      assert (slots[..n] + [[]])[..n] == slots[..n] && [] + last == last && slots == slots[..n] + [last];
    }
  }

  lemma SplitNothing()
    ensures Split([]) == [[]]
  {
  }

  lemma SplitAtNull(s: Bytes)
    ensures Split(s + [0]) == Split(s) + [[]]
  {
    assert (s + [0])[..|s|] == s;
  }

  /** Different stories have different canonical encodings. */
  lemma EncodingIsInjective(a: seq<Bytes>, b: seq<Bytes>)
    requires a != [] && b != [] && FirstFault(a, 0).None? && FirstFault(b, 0).None? && Delimited(a) == Delimited(b)
    ensures a == b
  {
    SplitUndoesDelimited(a);
    SplitUndoesDelimited(b);
  }
}
