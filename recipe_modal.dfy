/**
 * The detail view's parsing of a full recipe record: the ingredient list,
 * the instruction steps and the tags it displays.
 */
module RecipeModal {
  import opened Wrappers
  import opened Text
  import opened Seqs
  import opened Recipes

  // ---------------------------------------------------------------- ingredients

  /** One displayed ingredient line. */
  datatype Ingredient = Ingredient(name: string, measure: string)

  /** A slot is shown when its ingredient name is present and not whitespace only. */
  predicate IsKept(slot: Slot) {
    slot.ingredient.Some? && !IsBlank(slot.ingredient.value)
  }

  /** The line a kept slot shows: the trimmed name, and the trimmed measure or '' when the measure is absent. */
  function Entry(slot: Slot): Ingredient
    requires IsKept(slot)
  {
    Ingredient(Trim(slot.ingredient.value), if slot.measure.Some? then Trim(slot.measure.value) else "")
  }

  /** A shown name is never empty; name and measure are already trimmed; a blank measure is shown as ''. */
  lemma {:induction false} EntryWellFormed(slot: Slot)
    requires IsKept(slot)
    ensures Entry(slot).name != "" && Trim(Entry(slot).name) == Entry(slot).name
    ensures Trim(Entry(slot).measure) == Entry(slot).measure
    ensures slot.measure.None? || IsBlank(slot.measure.value) ==> Entry(slot).measure == ""
  {
    TrimSpec(slot.ingredient.value);
    TrimIdempotent(slot.ingredient.value);
    if slot.measure.Some? {
      TrimSpec(slot.measure.value);
      TrimIdempotent(slot.measure.value);
    }
  }

  /** The lines shown for `slots`, scanned in slot order. */
  function Ingredients(slots: seq<Slot>): (list: seq<Ingredient>)
    ensures |list| <= |slots|
  {
    if slots == [] then []
    else
      var last := slots[|slots| - 1];
      Ingredients(slots[..|slots| - 1]) + if IsKept(last) then [Entry(last)] else []
  }

  /** The positions of the kept slots, in increasing order. */
  ghost function KeptPositions(slots: seq<Slot>): (ks: seq<nat>)
    ensures |ks| <= |slots|
    ensures forall k :: 0 <= k < |ks| ==> ks[k] < |slots| && IsKept(slots[ks[k]])
    ensures forall j, k :: 0 <= j < k < |ks| ==> ks[j] < ks[k]
    ensures forall i :: 0 <= i < |slots| && IsKept(slots[i]) ==> i in ks
  {
    if slots == [] then []
    else
      var n := |slots| - 1;
      var prefix := slots[..n];
      var p := KeptPositions(prefix);
      var ks := p + if IsKept(slots[n]) then [n] else [];
      assert forall i :: 0 <= i < n ==> slots[i] == prefix[i];
      assert forall k :: 0 <= k < |p| ==> ks[k] == p[k];
      assert IsKept(slots[n]) ==> ks[|p|] == n && |ks| == |p| + 1;
      assert !IsKept(slots[n]) ==> ks == p;
      ks
  }

  /**
   * The k-th line shown is the entry of the k-th kept slot: lines come out in
   * slot order, a blank slot is skipped without ending the scan, and every slot
   * with a non-blank name is shown.
   */
  lemma {:induction false} IngredientsAreKeptSlots(slots: seq<Slot>)
    ensures |Ingredients(slots)| == |KeptPositions(slots)|
    ensures forall k :: 0 <= k < |KeptPositions(slots)| ==>
      Ingredients(slots)[k] == Entry(slots[KeptPositions(slots)[k]])
  {
    if slots != [] {
      var n := |slots| - 1;
      var prefix := slots[..n];
      var p, l := KeptPositions(prefix), Ingredients(prefix);
      IngredientsAreKeptSlots(prefix);
      var ks, list := KeptPositions(slots), Ingredients(slots);
      assert ks == p + if IsKept(slots[n]) then [n] else [];
      assert list == l + if IsKept(slots[n]) then [Entry(slots[n])] else [];
      forall k | 0 <= k < |ks| ensures list[k] == Entry(slots[ks[k]]) {
        if k < |p| {
          assert slots[p[k]] == prefix[p[k]];
        }
      }
    }
  }

  /** Slots can be scanned in two halves. */
  lemma {:induction false} IngredientsAppend(a: seq<Slot>, b: seq<Slot>)
    ensures Ingredients(a + b) == Ingredients(a) + Ingredients(b)
    decreases |b|
  {
    if b != [] {
      var n := |b| - 1;
      assert (a + b)[..|a + b| - 1] == a + b[..n];
      IngredientsAppend(a, b[..n]);
    } else {
      assert a + b == a;
    }
  }

  /** Slots whose names are all missing show nothing. */
  lemma {:induction false} IngredientsOfEmptySlots(slots: seq<Slot>)
    requires forall k :: 0 <= k < |slots| ==> slots[k].ingredient.None?
    ensures Ingredients(slots) == []
  {
    if slots != [] {
      IngredientsOfEmptySlots(slots[..|slots| - 1]);
    }
  }

  /** The extraction loop: for slot numbers 1 to 20, push the entry of every kept slot. */
  method ExtractIngredients(recipe: Recipe) returns (list: seq<Ingredient>)
    ensures list == Ingredients(recipe.slots)
    ensures |list| <= SlotCount
  {
    var slots: seq<Slot> := recipe.slots;
    list := [];
    for i := 1 to SlotCount + 1
      invariant list == Ingredients(slots[..i - 1])
    {
      var slot := slots[i - 1];
      assert slots[..i][..i - 1] == slots[..i - 1];
      if slot.ingredient.Some? {
        TrimSpec(slot.ingredient.value);
      }
      if slot.ingredient.Some? && Trim(slot.ingredient.value) != "" {
        var measure := if slot.measure.Some? then Trim(slot.measure.value) else "";
        list := list + [Ingredient(Trim(slot.ingredient.value), measure)];
      }
    }
    assert slots[..SlotCount] == slots;
  }

  /** The entries of the three named slots of SaltFlourExample. */
  lemma {:induction false} SaltFlourEntries()
    ensures IsKept(Slot(Some("Salt"), Some("1 tsp"))) && Entry(Slot(Some("Salt"), Some("1 tsp"))) == Ingredient("Salt", "1 tsp")
    ensures !IsKept(Slot(Some(""), Some("2 cups")))
    ensures IsKept(Slot(Some("Flour"), Some(""))) && Entry(Slot(Some("Flour"), Some(""))) == Ingredient("Flour", "")
  {
    TrimFixedPoint("Salt");
    TrimFixedPoint("1 tsp");
    TrimFixedPoint("Flour");
  }

  /** A skipped slot between two kept ones does not stop the scan; nameless slots after them add nothing. */
  lemma {:induction false} SkippedSlotContinues(a: Slot, b: Slot, c: Slot, tail: seq<Slot>)
    requires IsKept(a) && !IsKept(b) && IsKept(c)
    requires forall k :: 0 <= k < |tail| ==> tail[k].ingredient.None?
    ensures Ingredients([a, b, c] + tail) == [Entry(a), Entry(c)]
  {
    ThreeSlots(a, b, c);
    IngredientsOfEmptySlots(tail);
    IngredientsAppend([a, b, c], tail);
  }

  lemma {:induction false} ThreeSlots(a: Slot, b: Slot, c: Slot)
    requires IsKept(a) && !IsKept(b) && IsKept(c)
    ensures Ingredients([a, b, c]) == [Entry(a), Entry(c)]
  {
    var e0, e2 := Entry(a), Entry(c);
    assert [a][..0] == [];
    assert Ingredients([a]) == [e0];
    assert [a, b][..1] == [a];
    assert Ingredients([a, b]) == [e0];
    assert [a, b, c][..2] == [a, b];
    assert Ingredients([a, b, c]) == [e0] + [e2];
  }


  /**
   * A record whose slots 1 to 3 hold ("Salt", "1 tsp"), ("", "2 cups") and ("Flour", "")
   * and whose other names are missing shows Salt and Flour: the nameless slot is
   * skipped and the empty measure is kept as ''.
   */
  lemma {:induction false} SaltFlourExample(slots: seq<Slot>)
    requires |slots| == SlotCount
    requires slots[0] == Slot(Some("Salt"), Some("1 tsp"))
    requires slots[1] == Slot(Some(""), Some("2 cups"))
    requires slots[2] == Slot(Some("Flour"), Some(""))
    requires forall k :: 3 <= k < |slots| ==> slots[k].ingredient.None?
    ensures Ingredients(slots) == [Ingredient("Salt", "1 tsp"), Ingredient("Flour", "")]
  {
    SaltFlourEntries();
    assert slots == [slots[0], slots[1], slots[2]] + slots[3..];
    SkippedSlotContinues(slots[0], slots[1], slots[2], slots[3..]);
  }

  // --------------------------------------------------------------- instructions

  /** Length of the run of ASCII digits at the start of `s`. */
  function DigitRun(s: string): (n: nat)
    ensures n <= |s|
    ensures forall i :: 0 <= i < n ==> IsDigit(s[i])
    ensures n < |s| ==> !IsDigit(s[n])
  {
    if |s| > 0 && IsDigit(s[0]) then 1 + DigitRun(s[1..]) else 0
  }

  /** The first character after the leading digits of `s` is a full stop. */
  predicate DotAfterDigits(s: string) {
    DigitRun(s) < |s| && s[DigitRun(s)] == '.'
  }

  /**
   * Length of the separator that `/\d+\.|\r\n|\n/` matches at the start of `s`,
   * or 0 when none does. The digit alternative is tried first and takes the
   * whole run of digits, so it matches only when that run ends in a full stop.
   */
  function SeparatorAt(s: string): (n: nat)
    ensures n <= |s|
  {
    if DigitRun(s) > 0 && DotAfterDigits(s) then DigitRun(s) + 1
    else if |s| >= 2 && s[0] == '\r' && s[1] == '\n' then 2
    else if |s| >= 1 && s[0] == '\n' then 1
    else 0
  }

  /**
   * The splitting scan: `cur` is the piece collected since the last separator
   * and `rest` the text not yet read. At each position a separator is tried;
   * when one matches, the current piece is closed and reading resumes after it.
   */
  function Scan(rest: string, cur: string): (pieces: seq<string>)
    ensures |pieces| >= 1
    decreases |rest|
  {
    if rest == [] then [cur]
    else if SeparatorAt(rest) > 0 then [cur] + Scan(rest[SeparatorAt(rest)..], "")
    else Scan(rest[1..], cur + [rest[0]])
  }

  /** `text.split(/\d+\.|\r\n|\n/)`. */
  function SplitInstructions(text: string): seq<string> {
    Scan(text, "")
  }

  /** The separators the scan consumes, in order. */
  ghost function ScanSeparators(rest: string): seq<string>
    decreases |rest|
  {
    if rest == [] then []
    else if SeparatorAt(rest) > 0 then [rest[..SeparatorAt(rest)]] + ScanSeparators(rest[SeparatorAt(rest)..])
    else ScanSeparators(rest[1..])
  }

  /** A string the separator pattern matches entirely: digits then a full stop, CR LF, or LF. */
  ghost predicate IsSeparator(t: string) {
    t == "\n" || t == "\r\n" ||
    (|t| >= 2 && t[|t| - 1] == '.' && forall i :: 0 <= i < |t| - 1 ==> IsDigit(t[i]))
  }

  /** The pieces with the separators put back between them. */
  ghost function Interleave(pieces: seq<string>, seps: seq<string>): string
    requires |pieces| == |seps| + 1
    decreases |seps|
  {
    if seps == [] then pieces[0] else pieces[0] + seps[0] + Interleave(pieces[1..], seps[1..])
  }

  /** Everything the scan consumes is text the separator pattern matches. */
  lemma {:induction false} ScanSeparatorsMatch(rest: string)
    ensures forall k :: 0 <= k < |ScanSeparators(rest)| ==> IsSeparator(ScanSeparators(rest)[k])
    decreases |rest|
  {
    if rest != [] {
      var n := SeparatorAt(rest);
      if n > 0 {
        ScanSeparatorsMatch(rest[n..]);
        assert ScanSeparators(rest)[1..] == ScanSeparators(rest[n..]);
        if DigitRun(rest) > 0 && DotAfterDigits(rest) {
          assert forall i :: 0 <= i < n - 1 ==> rest[..n][i] == rest[i];
        }
        assert IsSeparator(rest[..n]);
      } else {
        ScanSeparatorsMatch(rest[1..]);
      }
    }
  }

  /** The scan yields one piece more than it consumes separators. */
  lemma {:induction false} ScanCount(rest: string, cur: string)
    ensures |Scan(rest, cur)| == |ScanSeparators(rest)| + 1
    decreases |rest|
  {
    if rest != [] {
      var n := SeparatorAt(rest);
      if n > 0 {
        ScanCount(rest[n..], "");
      } else {
        ScanCount(rest[1..], cur + [rest[0]]);
      }
    }
  }

  /** The scan loses nothing: pieces and consumed separators, interleaved, rebuild the text. */
  lemma {:induction false} ScanRebuilds(rest: string, cur: string)
    ensures |Scan(rest, cur)| == |ScanSeparators(rest)| + 1
    ensures Interleave(Scan(rest, cur), ScanSeparators(rest)) == cur + rest
    decreases |rest|, 1
  {
    ScanCount(rest, cur);
    if rest == [] {
      assert cur + rest == cur;
    } else if SeparatorAt(rest) > 0 {
      RebuildsAtSeparator(rest, cur);
    } else {
      RebuildsAtPlain(rest, cur);
    }
  }

  lemma {:induction false} RebuildsAtSeparator(rest: string, cur: string)
    requires rest != [] && SeparatorAt(rest) > 0
    requires |Scan(rest, cur)| == |ScanSeparators(rest)| + 1
    ensures Interleave(Scan(rest, cur), ScanSeparators(rest)) == cur + rest
    decreases |rest|, 0
  {
    var n := SeparatorAt(rest);
    var tail := rest[n..];
    Rejoin(rest, n);
    var pieces, seps := Scan(tail, ""), ScanSeparators(tail);
    ScanRebuilds(tail, "");
    assert "" + tail == tail;
    ScanAtSeparator(rest, cur);
    SeparatorsAtSeparator(rest);
    InterleaveRebuild(cur, rest[..n], tail, pieces, seps);
  }

  lemma {:induction false} Rejoin(s: string, n: nat)
    requires n <= |s|
    ensures s[..n] + s[n..] == s
  {
  }

  lemma {:induction false} ScanAtSeparator(rest: string, cur: string)
    requires rest != [] && SeparatorAt(rest) > 0
    ensures Scan(rest, cur) == [cur] + Scan(rest[SeparatorAt(rest)..], "")
  {
  }

  lemma {:induction false} SeparatorsAtSeparator(rest: string)
    requires rest != [] && SeparatorAt(rest) > 0
    ensures ScanSeparators(rest) == [rest[..SeparatorAt(rest)]] + ScanSeparators(rest[SeparatorAt(rest)..])
  {
  }

  lemma {:induction false} InterleaveRebuild(cur: string, sep: string, tail: string, pieces: seq<string>, seps: seq<string>)
    requires |pieces| == |seps| + 1 && Interleave(pieces, seps) == tail
    ensures Interleave([cur] + pieces, [sep] + seps) == cur + (sep + tail)
  {
    InterleaveCons(cur, sep, pieces, seps);
  }

  lemma {:induction false} RebuildsAtPlain(rest: string, cur: string)
    requires rest != [] && SeparatorAt(rest) == 0
    requires |Scan(rest, cur)| == |ScanSeparators(rest)| + 1
    ensures Interleave(Scan(rest, cur), ScanSeparators(rest)) == cur + rest
    decreases |rest|, 0
  {
    var next := cur + [rest[0]];
    ShiftFirst(cur, rest);
    ScanRebuilds(rest[1..], next);
  }

  lemma {:induction false} ShiftFirst(cur: string, rest: string)
    requires rest != []
    ensures cur + [rest[0]] + rest[1..] == cur + rest
  {
    assert [rest[0]] + rest[1..] == rest;
  }

  lemma {:induction false} InterleaveCons(piece: string, sep: string, pieces: seq<string>, seps: seq<string>)
    requires |pieces| == |seps| + 1
    ensures Interleave([piece] + pieces, [sep] + seps) == piece + sep + Interleave(pieces, seps)
  {
    assert ([piece] + pieces)[1..] == pieces;
    assert ([sep] + seps)[1..] == seps;
  }

  /** The split rebuilds the text: the pieces, joined by the separators that were matched. */
  lemma {:induction false} SplitInstructionsRebuilds(text: string)
    ensures |SplitInstructions(text)| == |ScanSeparators(text)| + 1
    ensures Interleave(SplitInstructions(text), ScanSeparators(text)) == text
    ensures forall k :: 0 <= k < |ScanSeparators(text)| ==> IsSeparator(ScanSeparators(text)[k])
    ensures forall k :: 0 <= k < |SplitInstructions(text)| ==> SeparatorFree(SplitInstructions(text)[k])
    ensures forall k :: 0 <= k < |ScanSeparators(text)| ==>
      NoMatchAcross(SplitInstructions(text)[k], ScanSeparators(text)[k])
  {
    ScanRebuilds(text, "");
    ScanSeparatorsMatch(text);
    ScanPiecesSeparatorFree(text, "");
    ScanLeftmost(text, "");
  }

  /**
   * No match of the pattern starts inside `piece` and runs on into `sep`, the separator cut
   * right after it: a piece ending in a digit is not followed by a digit separator, and a
   * piece ending in CR is not followed by the LF separator. With `SeparatorFree` this makes
   * every cut the leftmost match, as `split` takes it.
   */
  ghost predicate NoMatchAcross(piece: string, sep: string) {
    piece == [] || sep == [] ||
    ((IsDigit(sep[0]) ==> !IsDigit(piece[|piece| - 1])) && (sep == "\n" ==> piece[|piece| - 1] != '\r'))
  }

  /** No cut of the scan leaves a match that started earlier, given that the piece under way cannot start one. */
  lemma {:induction false} ScanLeftmost(rest: string, cur: string)
    requires rest != [] && SeparatorAt(rest) > 0 ==> NoMatchAcross(cur, rest[..SeparatorAt(rest)])
    ensures |Scan(rest, cur)| == |ScanSeparators(rest)| + 1
    ensures forall k :: 0 <= k < |ScanSeparators(rest)| ==> NoMatchAcross(Scan(rest, cur)[k], ScanSeparators(rest)[k])
    decreases |rest|
  {
    ScanCount(rest, cur);
    if rest != [] {
      var n := SeparatorAt(rest);
      if n > 0 {
        ScanLeftmost(rest[n..], "");
        assert Scan(rest, cur)[1..] == Scan(rest[n..], "");
        assert ScanSeparators(rest)[1..] == ScanSeparators(rest[n..]);
      } else {
        var next := cur + [rest[0]];
        var tail := rest[1..];
        if tail != [] && SeparatorAt(tail) > 0 {
          var sep := tail[..SeparatorAt(tail)];
          if IsDigit(rest[0]) {
            assert DigitRun(rest) == 1 + DigitRun(tail);
            assert DotAfterDigits(tail) == DotAfterDigits(rest);
          }
          if rest[0] == '\r' {
            assert tail[0] != '\n';
          }
        }
        ScanLeftmost(tail, next);
      }
    }
  }

  /** No separator can match inside `s`: it has no line feed and no digit directly followed by a full stop. */
  ghost predicate SeparatorFree(s: string) {
    (forall i :: 0 <= i < |s| ==> s[i] != '\n') &&
    (forall i :: 0 < i < |s| && s[i] == '.' ==> !IsDigit(s[i - 1]))
  }

  /** Every piece of a scan is separator-free, given that the piece under way is and cannot complete a separator. */
  lemma {:induction false} ScanPiecesSeparatorFree(rest: string, cur: string)
    requires SeparatorFree(cur)
    requires |cur| > 0 && IsDigit(cur[|cur| - 1]) ==> !DotAfterDigits(rest)
    ensures forall k :: 0 <= k < |Scan(rest, cur)| ==> SeparatorFree(Scan(rest, cur)[k])
    decreases |rest|
  {
    if rest != [] {
      var n := SeparatorAt(rest);
      if n > 0 {
        ScanPiecesSeparatorFree(rest[n..], "");
        assert Scan(rest, cur)[1..] == Scan(rest[n..], "");
      } else {
        var next := cur + [rest[0]];
        assert rest[0] != '\n';
        assert rest[0] == '.' ==> DigitRun(rest) == 0;
        assert SeparatorFree(next) by {
          forall i | 0 < i < |next| && next[i] == '.' ensures !IsDigit(next[i - 1]) {
            if i < |cur| {
              assert next[i] == cur[i] && next[i - 1] == cur[i - 1];
            }
          }
        }
        if IsDigit(rest[0]) {
          assert DigitRun(rest) == 1 + DigitRun(rest[1..]);
          assert DotAfterDigits(rest[1..]) == DotAfterDigits(rest);
        }
        ScanPiecesSeparatorFree(rest[1..], next);
      }
    }
  }

  /** Part of a separator-free string is separator-free. */
  lemma {:induction false} SeparatorFreeSlice(s: string, i: nat, j: nat)
    requires i <= j <= |s| && SeparatorFree(s)
    ensures SeparatorFree(s[i..j])
  {
    var t := s[i..j];
    forall k | 0 < k < |t| && t[k] == '.' ensures !IsDigit(t[k - 1]) {
      assert t[k] == s[i + k] && t[k - 1] == s[i + k - 1];
    }
  }

  /** The pieces that are not whitespace only, in order. */
  function NonBlank(pieces: seq<string>): (kept: seq<string>)
    ensures |kept| <= |pieces|
    ensures forall k :: 0 <= k < |kept| ==> !IsBlank(kept[k]) && kept[k] in pieces
    ensures IsSubsequence(kept, pieces)
  {
    if pieces == [] then []
    else if IsBlank(pieces[0]) then NonBlank(pieces[1..])
    else [pieces[0]] + NonBlank(pieces[1..])
  }

  /** The filter drops only blank pieces: every non-blank piece is kept as often as it occurs. */
  lemma {:induction false} NonBlankKeepsNonBlank(pieces: seq<string>)
    ensures forall p :: !IsBlank(p) ==> multiset(NonBlank(pieces))[p] == multiset(pieces)[p]
    decreases |pieces|
  {
    if pieces != [] {
      NonBlankKeepsNonBlank(pieces[1..]);
      assert pieces == [pieces[0]] + pieces[1..];
    }
  }

  /** Each piece trimmed. */
  function TrimEach(pieces: seq<string>): (trimmed: seq<string>)
    ensures |trimmed| == |pieces|
    ensures forall k :: 0 <= k < |pieces| ==> trimmed[k] == Trim(pieces[k])
  {
    if pieces == [] then [] else [Trim(pieces[0])] + TrimEach(pieces[1..])
  }

  /** The displayed steps: nothing for absent or empty instructions, else the non-blank pieces of the split, trimmed. */
  function Steps(instructions: Option<string>): seq<string> {
    match instructions
    case None => []
    case Some(text) => if text == "" then [] else TrimEach(NonBlank(SplitInstructions(text)))
  }

  /**
   * Every displayed step is non-empty and trimmed, contains no line feed (a lone
   * LF and the LF of CR LF both separate) and no digit directly followed by a full stop.
   */
  lemma {:induction false} StepsWellFormed(instructions: Option<string>)
    ensures forall k :: 0 <= k < |Steps(instructions)| ==>
      var step := Steps(instructions)[k];
      step != "" && Trim(step) == step && SeparatorFree(step)
  {
    if instructions.Some? && instructions.value != "" {
      var pieces := SplitInstructions(instructions.value);
      ScanPiecesSeparatorFree(instructions.value, "");
      var kept := NonBlank(pieces);
      forall k | 0 <= k < |kept| ensures var step := Trim(kept[k]); step != "" && Trim(step) == step && SeparatorFree(step) {
        var p := kept[k];
        TrimSpec(p);
        TrimIdempotent(p);
        SeparatorFreeSlice(p, TrimOffset(p), TrimOffset(p) + |Trim(p)|);
      }
    }
  }

  /** Absent or empty instructions show no steps rather than failing. */
  lemma {:induction false} StepsOfNothing()
    ensures Steps(None) == [] && Steps(Some("")) == []
  {
  }

  /** Blank text yields no step either: every piece of it is blank. */
  lemma {:induction false} StepsOfBlank(text: string)
    requires IsBlank(text)
    ensures Steps(Some(text)) == []
  {
    var pieces := SplitInstructions(text);
    ScanRebuilds(text, "");
    BlankPieces(text, "");
    NonBlankOfBlanks(pieces);
  }

  lemma {:induction false} BlankPieces(rest: string, cur: string)
    requires IsBlank(rest) && IsBlank(cur)
    ensures forall k :: 0 <= k < |Scan(rest, cur)| ==> IsBlank(Scan(rest, cur)[k])
    decreases |rest|
  {
    if rest != [] {
      var n := SeparatorAt(rest);
      assert !IsDigit(rest[0]);
      if n > 0 {
        BlankPieces(rest[n..], "");
        assert Scan(rest, cur)[1..] == Scan(rest[n..], "");
      } else {
        BlankPieces(rest[1..], cur + [rest[0]]);
      }
    }
  }

  lemma {:induction false} NonBlankOfBlanks(pieces: seq<string>)
    requires forall k :: 0 <= k < |pieces| ==> IsBlank(pieces[k])
    ensures NonBlank(pieces) == []
  {
    if pieces != [] {
      NonBlankOfBlanks(pieces[1..]);
    }
  }

  /** A character no separator can start with. */
  predicate IsPlain(c: char) {
    !IsDigit(c) && c != '\r' && c != '\n'
  }

  /** Plain text is added to the piece under way. */
  lemma {:induction false} ScanPlain(x: string, y: string, cur: string)
    requires forall c :: c in x ==> IsPlain(c)
    ensures Scan(x + y, cur) == Scan(y, cur + x)
    decreases |x|
  {
    if x == [] {
      assert x + y == y && cur + x == cur;
    } else {
      assert (x + y)[0] == x[0] && IsPlain(x[0]);
      assert SeparatorAt(x + y) == 0;
      assert (x + y)[1..] == x[1..] + y;
      ScanPlain(x[1..], y, cur + [x[0]]);
      assert cur + [x[0]] + x[1..] == cur + x;
    }
  }

  /** A run of digits that the next character shows is not followed by a full stop is added to the piece under way. */
  lemma {:induction false} ScanDigits(x: string, y: string, cur: string)
    requires forall c :: c in x ==> IsDigit(c)
    requires y != [] && !IsDigit(y[0]) && y[0] != '.'
    ensures Scan(x + y, cur) == Scan(y, cur + x)
    decreases |x|
  {
    if x == [] {
      assert x + y == y && cur + x == cur;
    } else {
      DigitRunOfDigits(x, y);
      assert (x + y)[0] == x[0] && IsDigit(x[0]);
      assert SeparatorAt(x + y) == 0;
      assert (x + y)[1..] == x[1..] + y;
      ScanDigits(x[1..], y, cur + [x[0]]);
      assert cur + [x[0]] + x[1..] == cur + x;
    }
  }

  lemma {:induction false} DigitRunOfDigits(x: string, y: string)
    requires forall c :: c in x ==> IsDigit(c)
    requires y == [] || !IsDigit(y[0])
    ensures DigitRun(x + y) == |x|
    decreases |x|
  {
    if x == [] {
      assert x + y == y;
    } else {
      assert x[0] in x;
      assert (x + y)[1..] == x[1..] + y;
      assert forall c :: c in x[1..] ==> c in x;
      DigitRunOfDigits(x[1..], y);
    }
  }

  /** A matched separator closes the piece under way. */
  lemma {:induction false} ScanSeparator(sep: string, y: string, cur: string)
    requires |sep| > 0 && SeparatorAt(sep + y) == |sep|
    ensures Scan(sep + y, cur) == [cur] + Scan(y, "")
  {
    assert (sep + y)[|sep|..] == y;
  }

  /** A step number: one digit and a full stop. */
  lemma {:induction false} NumberSeparator(d: char, y: string)
    requires IsDigit(d)
    ensures SeparatorAt([d, '.'] + y) == 2
  {
    DigitRunOfDigits([d], ['.'] + y);
    assert [d, '.'] + y == [d] + (['.'] + y);
  }

  /** Leading whitespace does not change the trim. */
  lemma {:induction false} TrimLeadingSpace(c: char, s: string)
    requires IsSpace(c)
    ensures Trim([c] + s) == Trim(s)
  {
    assert ([c] + s)[1..] == s;
  }

  /** The last step, numbered 3, after a CRLF: an empty piece then the step's text. */
  lemma {:induction false} LastStepPieces(step2: string, cool: string)
    requires forall c :: c in cool ==> IsPlain(c)
    ensures Scan("\r\n" + ("3." + cool), step2) == [step2, "", cool]
  {
    ScanPlain(cool, "", "");
    assert cool + "" == cool && "" + cool == cool;
    NumberSeparator('3', cool);
    ScanSeparator("3.", cool, "");
    ScanSeparator("\r\n", "3." + cool, step2);
  }

  /** The middle step, numbered 2, holding a number that is not followed by a full stop. */
  lemma {:induction false} MiddleStepPieces(bake: string, twenty: string, min: string, rest: string)
    requires forall c :: c in bake ==> IsPlain(c)
    requires forall c :: c in twenty ==> IsDigit(c)
    requires forall c :: c in min ==> IsPlain(c)
    requires min != [] && min[0] != '.'
    ensures Scan("2." + (bake + (twenty + (min + rest))), "") == [""] + Scan(rest, bake + twenty + min)
  {
    var r5 := min + rest;
    var r4 := twenty + r5;
    var r3 := bake + r4;
    ScanPlain(min, rest, bake + twenty);
    assert min[0] in min;
    assert r5[0] == min[0];
    ScanDigits(twenty, r5, bake);
    ScanPlain(bake, r4, "");
    assert "" + bake == bake;
    NumberSeparator('2', r3);
    ScanSeparator("2.", r3, "");
  }

  /** The first step, numbered 1, ended by a line feed. */
  lemma {:induction false} FirstStepPieces(mix: string, rest: string)
    requires forall c :: c in mix ==> IsPlain(c)
    ensures Scan("1." + (mix + ("\n" + rest)), "") == ["", mix] + Scan(rest, "")
  {
    var r1 := "\n" + rest;
    ScanSeparator("\n", rest, mix);
    ScanPlain(mix, r1, "");
    assert "" + mix == mix;
    NumberSeparator('1', mix + r1);
    ScanSeparator("1.", mix + r1, "");
  }

  /**
   * Three numbered steps, the second holding a number that is not a step number and
   * ended by CRLF, split into six pieces: an empty one before each step number and the text of each step.
   */
  lemma {:induction false} ThreeStepsPieces(mix: string, bake: string, twenty: string, min: string, cool: string)
    requires forall c :: c in mix ==> IsPlain(c)
    requires forall c :: c in bake ==> IsPlain(c)
    requires forall c :: c in twenty ==> IsDigit(c)
    requires forall c :: c in min ==> IsPlain(c)
    requires min != [] && min[0] != '.'
    requires forall c :: c in cool ==> IsPlain(c)
    ensures SplitInstructions("1." + (mix + ("\n" + ("2." + (bake + (twenty + (min + ("\r\n" + ("3." + cool)))))))))
         == ["", mix, "", bake + twenty + min, "", cool]
  {
    var tail := "\r\n" + ("3." + cool);
    LastStepPieces(bake + twenty + min, cool);
    MiddleStepPieces(bake, twenty, min, tail);
    FirstStepPieces(mix, "2." + (bake + (twenty + (min + tail))));
  }

  /** Dropping the empty pieces between three non-blank ones and trimming the rest. */
  lemma {:induction false} StepsOfThreePieces(a: string, b: string, c: string)
    requires !IsBlank(a) && !IsBlank(b) && !IsBlank(c)
    ensures TrimEach(NonBlank(["", a, "", b, "", c])) == [Trim(a), Trim(b), Trim(c)]
  {
    NonBlankOfThree(a, b, c);
    assert [a, b, c][1..] == [b, c] && [b, c][1..] == [c] && [c][1..] == [];
  }

  lemma {:induction false} NonBlankOfThree(a: string, b: string, c: string)
    requires !IsBlank(a) && !IsBlank(b) && !IsBlank(c)
    ensures NonBlank(["", a, "", b, "", c]) == [a, b, c]
  {
    assert IsBlank("");
    assert NonBlank([c]) == [c] by { assert [c][1..] == []; }
    assert NonBlank(["", c]) == [c] by { assert ["", c][1..] == [c]; }
    assert NonBlank([b, "", c]) == [b, c] by { assert [b, "", c][1..] == ["", c]; }
    assert NonBlank(["", b, "", c]) == [b, c] by { assert ["", b, "", c][1..] == [b, "", c]; }
    assert NonBlank([a, "", b, "", c]) == [a, b, c] by { assert [a, "", b, "", c][1..] == ["", b, "", c]; }
    assert ["", a, "", b, "", c][1..] == [a, "", b, "", c];
  }

  /** A step written after one blank is not blank and trims to itself without the blank. */
  lemma {:induction false} SpacedStep(s: string)
    requires s != [] && !IsSpace(s[0]) && !IsSpace(s[|s| - 1])
    ensures !IsBlank([' '] + s) && Trim([' '] + s) == s
  {
    assert !IsSpace(([' '] + s)[1]);
    TrimLeadingSpace(' ', s);
    TrimFixedPoint(s);
  }

  /** Three numbered steps, each after a blank, come out trimmed and in order. */
  lemma {:induction false} ThreeSteps(mix: string, bake: string, twenty: string, min: string, cool: string)
    requires forall c :: c in mix ==> IsPlain(c)
    requires forall c :: c in bake ==> IsPlain(c)
    requires forall c :: c in twenty ==> IsDigit(c)
    requires forall c :: c in min ==> IsPlain(c)
    requires min != [] && min[0] != '.'
    requires forall c :: c in cool ==> IsPlain(c)
    requires mix != [] && !IsSpace(mix[0]) && !IsSpace(mix[|mix| - 1])
    requires bake != [] && !IsSpace(bake[0]) && !IsSpace(min[|min| - 1])
    requires cool != [] && !IsSpace(cool[0]) && !IsSpace(cool[|cool| - 1])
    ensures Steps(Some("1." + ([' '] + mix + ("\n" + ("2." + ([' '] + bake + (twenty + (min + ("\r\n" + ("3." + ([' '] + cool)))))))))))
         == [mix, bake + twenty + min, cool]
  {
    var sMix, sBake, sCool := [' '] + mix, [' '] + bake, [' '] + cool;
    ThreeStepsPieces(sMix, sBake, twenty, min, sCool);
    var step2 := bake + twenty + min;
    assert sBake + twenty + min == [' '] + step2;
    assert step2[0] == bake[0] && step2[|step2| - 1] == min[|min| - 1];
    SpacedStep(mix);
    SpacedStep(step2);
    SpacedStep(cool);
    StepsOfThreePieces(sMix, [' '] + step2, sCool);
  }

  /** The example text as the pieces the general three-step lemma takes. */
  lemma {:induction false} StepsExampleText(text: string)
    requires text == "1. Mix flour.\n2. Bake for 20 min.\r\n3. Cool."
    ensures text == "1." + ([' '] + "Mix flour." + ("\n" + ("2." + ([' '] + "Bake for " + ("20" + (" min." + ("\r\n" + ("3." + ([' '] + "Cool.")))))))))
  {
  }

  lemma {:induction false} BakeLiteral()
    ensures "Bake for " + "20" + " min." == "Bake for 20 min."
  {
  }

  /** The three numbered steps come out in order; "20" is not followed by a full stop and does not split. */
  lemma {:induction false} StepsExample(text: string)
    requires text == "1. Mix flour.\n2. Bake for 20 min.\r\n3. Cool."
    ensures Steps(Some(text)) == ["Mix flour.", "Bake for 20 min.", "Cool."]
  {
    StepsExampleText(text);
    ThreeSteps("Mix flour.", "Bake for ", "20", " min.", "Cool.");
    BakeLiteral();
  }

  // ----------------------------------------------------------------------- tags

  /** The displayed tags: none when the tag string is absent or empty, else every comma-separated piece, trimmed. */
  function Tags(tags: Option<string>): seq<string> {
    match tags
    case None => []
    case Some(text) => if text == "" then [] else TrimEach(SplitOn(text, ','))
  }

  /** No tags are shown exactly when the tag string is absent or empty. */
  lemma {:induction false} TagsEmptyIff(tags: Option<string>)
    ensures Tags(tags) == [] <==> tags.None? || tags == Some("")
  {
  }

  /**
   * A non-empty tag string shows one tag more than it has commas: the pieces
   * between the commas, in order, each trimmed, empty pieces included.
   */
  lemma {:induction false} TagsOfText(text: string)
    requires text != ""
    ensures |Tags(Some(text))| == Occurrences(text, ',') + 1
    ensures forall k :: 0 <= k < |Tags(Some(text))| ==> Tags(Some(text))[k] == Trim(SplitOn(text, ',')[k])
    ensures Join(SplitOn(text, ','), ',') == text
  {
    SplitOnCount(text, ',');
    JoinSplitOn(text, ',');
  }
}
