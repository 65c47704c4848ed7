/**
 Literal markup of scripts/check-docs.py: the destinations of inline links, their titles, and HTML tags. Each
 scan is a loop proved against a recursive function; what the function finds is stated beside it.
 */
module Markup {
  import opened Options

  /** Python's str.isspace and the regular expression class \s. */
  predicate IsSpace(c: char) {
    c as int in {9, 10, 11, 12, 13, 28, 29, 30, 31, 32, 133, 160, 5760, 8232, 8233, 8239, 8287, 12288} || 8192 <= c as int <= 8202
  }

  /** Tab to carriage return, the four separators, space, next line, no-break space, and the spaces of Unicode. */
  lemma SpacesAre(c: char)
    ensures IsSpace(c) <==>
              || 9 <= c as int <= 13 || 28 <= c as int <= 32 || c as int == 0x85 || c as int == 0xa0 || c as int == 0x1680
              || 0x2000 <= c as int <= 0x200a || c as int == 0x2028 || c as int == 0x2029 || c as int == 0x202f
              || c as int == 0x205f || c as int == 0x3000
  {
  }

  function SpacesEnd(text: string, at: nat): (end: nat)
    requires at <= |text|
    ensures at <= end <= |text|
    decreases |text| - at
  {
    if at < |text| && IsSpace(text[at]) then SpacesEnd(text, at + 1) else at
  }

  lemma {:induction false} SpacesUpTo(text: string, at: nat, end: nat)
    requires at <= end <= |text| && (forall i :: at <= i < end ==> IsSpace(text[i])) && (end < |text| ==> !IsSpace(text[end]))
    ensures SpacesEnd(text, at) == end
    decreases end - at
  {
    if at < end {
      SpacesUpTo(text, at + 1, end);
    }
  }

  function NextOf(text: string, at: nat, c: char): (found: Option<nat>)
    requires at <= |text|
    ensures found.Some? ==> at <= found.value < |text| && text[found.value] == c
    decreases |text| - at
  {
    if at == |text| then None else if text[at] == c then Some(at) else NextOf(text, at + 1, c)
  }

  lemma {:induction false} NextAt(text: string, at: nat, c: char, end: Option<nat>)
    requires at <= |text|
    requires end.Some? ==> at <= end.value < |text| && text[end.value] == c && forall i :: at <= i < end.value ==> text[i] != c
    requires end.None? ==> forall i :: at <= i < |text| ==> text[i] != c
    ensures NextOf(text, at, c) == end
    decreases |text| - at
  {
    if at < |text| && text[at] != c {
      NextAt(text, at + 1, c, end);
    }
  }

  method SkipSpaces(text: string, start: nat) returns (cursor: nat)
    requires start <= |text|
    ensures cursor == SpacesEnd(text, start)
    ensures start <= cursor <= |text| && (forall i :: start <= i < cursor ==> IsSpace(text[i]))
    ensures cursor < |text| ==> !IsSpace(text[cursor])
  {
    cursor := start;
    while cursor < |text| && IsSpace(text[cursor])
      invariant start <= cursor <= |text| && forall i :: start <= i < cursor ==> IsSpace(text[i])
    {
      cursor := cursor + 1;
    }
    SpacesUpTo(text, start, cursor);
  }

  /** The next `c` at or after `start`. */
  method Find(text: string, start: nat, c: char) returns (at: Option<nat>)
    requires start <= |text|
    ensures at == NextOf(text, start, c)
  {
    for i := start to |text|
      invariant forall k :: start <= k < i ==> text[k] != c
    {
      if text[i] == c {
        NextAt(text, start, c, Some(i));
        return Some(i);
      }
    }
    at := None;
    NextAt(text, start, c, None);
  }

  /** How deep in unescaped parentheses a bare destination is before `upto`; none once one closes too many or a blank ends it. */
  function Depth(text: string, from: nat, upto: nat): (depth: Option<nat>)
    requires from <= upto
  {
    DepthFrom(text, from, upto, 0)
  }

  function DepthFrom(text: string, from: nat, upto: nat, depth: nat): Option<nat>
    requires from <= upto
    decreases upto - from
  {
    if from == upto || from >= |text| then Some(depth)
    else if text[from] == '\\' then if from + 2 <= upto then DepthFrom(text, from + 2, upto, depth) else None
    else if IsSpace(text[from]) then None
    else if text[from] == '(' then DepthFrom(text, from + 1, upto, depth + 1)
    else if text[from] == ')' then if depth == 0 then None else DepthFrom(text, from + 1, upto, depth - 1)
    else DepthFrom(text, from + 1, upto, depth)
  }

  /** Reading one more character, or an escaped pair, of a destination. */
  lemma {:induction false} DepthStep(text: string, from: nat, upto: nat, depth: nat, next: nat)
    requires from <= upto < |text| && DepthFrom(text, from, upto, depth).Some?
    requires next == if text[upto] == '\\' then upto + 2 else upto + 1
    ensures DepthFrom(text, from, next, depth) == DepthFrom(text, upto, next, DepthFrom(text, from, upto, depth).value)
    decreases upto - from
  {
    if from < upto {
      var step := if text[from] == '\\' then from + 2 else from + 1;
      DepthStep(text, step, upto, if text[from] == '(' then depth + 1 else if text[from] == ')' then depth - 1 else depth, next);
    }
  }

  /** Where an angle destination stops, past its closing bracket. */
  function AngleStop(text: string, at: nat): Option<nat>
    decreases |text| + 1 - at
  {
    if at >= |text| then None
    else if text[at] == '\\' then if at + 2 <= |text| then AngleStop(text, at + 2) else None
    else if text[at] == '>' then Some(at + 1)
    else if text[at] in "\n<" then None
    else AngleStop(text, at + 1)
  }

  /** Where a bare destination stops: at a blank, at the parenthesis that closes the link, or at the end. */
  function BareStop(text: string, at: nat, depth: nat): Option<nat>
    decreases |text| + 2 - at
  {
    if at >= |text| then if depth > 0 then None else Some(at)
    else if text[at] == '\\' then BareStop(text, at + 2, depth)
    else if IsSpace(text[at]) then if depth > 0 then None else Some(at)
    else if text[at] == '(' then BareStop(text, at + 1, depth + 1)
    else if text[at] == ')' then if depth == 0 then Some(at) else BareStop(text, at + 1, depth - 1)
    else BareStop(text, at + 1, depth)
  }

  function DestinationStop(text: string, start: nat): Option<nat>
    requires start <= |text|
  {
    var begin := SpacesEnd(text, start);
    if begin < |text| && text[begin] == '<' then AngleStop(text, begin + 1) else BareStop(text, begin, 0)
  }

  // ---- Where a destination stops, by its characters ----

  /** The character at `i` is escaped, reading from `from`: a backslash that is not escaped itself stands before it. */
  ghost predicate Escaped(text: string, from: nat, i: nat)
    requires i <= |text|
  {
    i > from && text[i - 1] == '\\' && !Escaped(text, from, i - 1)
  }

  /** Unescaped opening parentheses less closing ones before `i`. */
  ghost function Height(text: string, from: nat, i: nat): int
    requires i <= |text|
  {
    if i <= from then 0
    else
      Height(text, from, i - 1) +
      if Escaped(text, from, i - 1) then 0 else if text[i - 1] == '(' then 1 else if text[i - 1] == ')' then -1 else 0
  }

  /** An angle destination ends after the first unescaped closing bracket, with no unescaped line feed or opening bracket before. */
  ghost predicate AngleEnds(text: string, from: nat, stop: nat) {
    && from < stop <= |text| && text[stop - 1] == '>' && !Escaped(text, from, stop - 1)
    && forall i :: from <= i < stop - 1 ==> !AngleBreaks(text, from, i)
  }

  ghost predicate AngleBreaks(text: string, from: nat, i: nat)
    requires i < |text|
  {
    !Escaped(text, from, i) && (text[i] == '>' || text[i] == '<' || text[i] == '\n')
  }

  /** What ends a bare destination: an unescaped blank, or a closing parenthesis that matches none in it. */
  ghost predicate BareBreaks(text: string, from: nat, i: nat)
    requires i < |text|
  {
    !Escaped(text, from, i) && (IsSpace(text[i]) || (text[i] == ')' && Height(text, from, i) == 0))
  }

  /**
   A bare destination ends at the first place that ends it, or with the text, one past it when a backslash ends the
   text; its parentheses must be closed by then.
   */
  ghost predicate BareEnds(text: string, from: nat, stop: nat) {
    && from <= stop <= |text| + 1
    && (forall i :: from <= i < stop && i < |text| ==> !BareBreaks(text, from, i))
    && (stop < |text| ==> BareBreaks(text, from, stop))
    && (stop >= |text| && from <= |text| ==> (stop == |text| + 1 <==> Escaped(text, from, |text|)))
    && Height(text, from, if stop <= |text| then stop else |text|) == 0
  }

  lemma {:induction false} AngleMeans(text: string, from: nat, at: nat, stop: nat)
    requires from <= at && from <= |text| && (at <= |text| ==> !Escaped(text, from, at))
    requires forall i :: from <= i < at && i < |text| ==> !AngleBreaks(text, from, i)
    ensures AngleStop(text, at) == Some(stop) <==> AngleEnds(text, from, stop)
    decreases |text| + 1 - at
  {
    assert AngleEnds(text, from, stop) ==> AngleBreaks(text, from, stop - 1);
    if at < |text| {
      if text[at] == '\\' {
        assert Escaped(text, from, at + 1);
        if at + 2 <= |text| {
          assert !Escaped(text, from, at + 2);
          AngleMeans(text, from, at + 2, stop);
        }
      } else if text[at] !in "\n<>" {
        AngleMeans(text, from, at + 1, stop);
      } else {
        assert AngleBreaks(text, from, at);
      }
    }
  }

  lemma {:induction false} BareMeans(text: string, from: nat, at: nat, depth: nat, stop: nat)
    requires from <= at <= |text| + 1 && from <= |text|
    requires if at <= |text| then !Escaped(text, from, at) && Height(text, from, at) == depth
             else Escaped(text, from, |text|) && Height(text, from, |text|) == depth
    requires forall i :: from <= i < at && i < |text| ==> !BareBreaks(text, from, i)
    ensures BareStop(text, at, depth) == Some(stop) <==> BareEnds(text, from, stop)
    decreases |text| + 2 - at
  {
    NoSpaces();
    hide IsSpace;
    if at < |text| {
      if text[at] == '\\' {
        assert Escaped(text, from, at + 1);
        assert Height(text, from, at + 1) == depth;
        if at + 2 <= |text| {
          assert Height(text, from, at + 2) == depth;
        }
        BareMeans(text, from, at + 2, depth, stop);
      } else if IsSpace(text[at]) || (text[at] == ')' && depth == 0) {
        assert BareBreaks(text, from, at);
      } else {
        assert !BareBreaks(text, from, at);
        BareMeans(text, from, at + 1, if text[at] == '(' then depth + 1 else if text[at] == ')' then depth - 1 else depth, stop);
      }
    }
  }

  /** A destination: blanks, then an angle one or a bare one. */
  ghost predicate EndsDestination(text: string, start: nat, begin: nat, stop: nat) {
    && start <= begin <= |text| && (forall i :: start <= i < begin ==> IsSpace(text[i])) && (begin < |text| ==> !IsSpace(text[begin]))
    && if begin < |text| && text[begin] == '<' then AngleEnds(text, begin + 1, stop) else BareEnds(text, begin, stop)
  }

  /** The scan stops exactly where a destination does. */
  lemma DestinationMeans(text: string, start: nat, stop: nat)
    requires start <= |text|
    ensures DestinationStop(text, start) == Some(stop) <==> exists begin: nat :: EndsDestination(text, start, begin, stop)
  {
    hide IsSpace, AngleStop, BareStop, AngleEnds, BareEnds;
    var begin := SpacesEnd(text, start);
    SpacesAll(text, start);
    NothingRead(text, begin);
    if begin < |text| && text[begin] == '<' {
      NothingRead(text, begin + 1);
      AngleMeans(text, begin + 1, begin + 1, stop);
    } else {
      BareMeans(text, begin, begin, 0, stop);
    }
    if DestinationStop(text, start) == Some(stop) {
      assert EndsDestination(text, start, begin, stop);
    }
    if other: nat :| EndsDestination(text, start, other, stop) {
      SpacesUpTo(text, start, other);
    }
  }

  lemma NothingRead(text: string, from: nat)
    requires from <= |text|
    ensures !Escaped(text, from, from) && Height(text, from, from) == 0
  {
  }

  function StopOf(target: Option<Target>): Option<nat> {
    if target.Some? then Some(target.value.stop) else None
  }

  /** A link target and where reading stops, which a trailing backslash puts one past the end. */
  datatype Target = Target(begin: nat, end: nat, stop: nat)

  method Destination(text: string, start: nat) returns (target: Option<Target>)
    requires start <= |text|
    ensures StopOf(target) == DestinationStop(text, start)
    ensures target.Some? ==>
              && start <= target.value.begin <= target.value.end <= target.value.stop <= |text| + 1 && target.value.begin <= |text|
              && (if target.value.begin > start && text[target.value.begin - 1] == '<'
                  then target.value.stop == target.value.end + 1 <= |text| && text[target.value.end] == '>'
                  else target.value.stop == target.value.end && Depth(text, target.value.begin, target.value.end) == Some(0))
  {
    var cursor := SkipSpaces(text, start);
    var begin := cursor;
    if cursor < |text| && text[cursor] == '<' {
      cursor := cursor + 1;
      begin := cursor;
      while cursor < |text|
        invariant begin <= cursor <= |text| + 1 && AngleStop(text, begin) == AngleStop(text, cursor)
      {
        if text[cursor] == '\\' {
          cursor := cursor + 2;
        } else if text[cursor] == '>' {
          return Some(Target(begin, cursor, cursor + 1));
        } else if text[cursor] in "\n<" {
          return None;
        } else {
          cursor := cursor + 1;
        }
      }
      return None;
    }
    var depth := 0;
    while cursor < |text|
      invariant begin <= cursor <= |text| + 1 && Depth(text, begin, cursor) == Some(depth)
      invariant BareStop(text, begin, 0) == BareStop(text, cursor, depth)
    {
      var c := text[cursor];
      if c == '\\' {
        DepthStep(text, begin, cursor, 0, cursor + 2);
        cursor := cursor + 2;
        continue;
      }
      if IsSpace(c) {
        break;
      }
      DepthStep(text, begin, cursor, 0, cursor + 1);
      if c == '(' {
        depth := depth + 1;
      } else if c == ')' {
        if depth == 0 {
          break;
        }
        depth := depth - 1;
      }
      cursor := cursor + 1;
    }
    if depth > 0 {
      return None;
    }
    assert begin > start ==> IsSpace(text[begin - 1]);
    target := Some(Target(begin, cursor, cursor));
  }

  /** Where an optional title at `at` ends. */
  function TitleEnd(text: string, at: nat): (end: Option<nat>)
    requires at <= |text|
    ensures end.Some? ==> at <= end.value <= |text|
  {
    if at == |text| || text[at] !in "\"'(" then Some(at)
    else if text[at] == '(' then
      var inner := ParenEnd(text, at + 1);
      if inner == |text| || text[inner] == '(' then None else Some(inner + 1)
    else
      var close := NextOf(text, at + 1, text[at]);
      if close.None? then None else Some(close.value + 1)
  }

  function ParenEnd(text: string, at: nat): (end: nat)
    requires at <= |text|
    ensures at <= end <= |text| && (forall i :: at <= i < end ==> text[i] !in "()") && (end < |text| ==> text[end] in "()")
    decreases |text| - at
  {
    if at < |text| && text[at] !in "()" then ParenEnd(text, at + 1) else at
  }

  function ClosingStop(text: string, start: nat): (end: Option<nat>)
    requires start <= |text|
    ensures end.Some? ==> start < end.value <= |text| && text[end.value - 1] == ')'
  {
    var title := TitleEnd(text, SpacesEnd(text, start));
    if title.None? then None
    else
      var close := SpacesEnd(text, title.value);
      if close < |text| && text[close] == ')' then Some(close + 1) else None
  }

  /** A title in double quotes, single quotes or parentheses, or none at all. */
  ghost predicate Title(text: string, begin: nat, end: nat) {
    && begin <= end <= |text|
    && (begin < end ==>
          && begin + 2 <= end
          && (if text[begin] == '(' then text[end - 1] == ')' && forall i :: begin < i < end - 1 ==> text[i] !in "()"
              else text[begin] in "\"'" && text[end - 1] == text[begin] && forall i :: begin < i < end - 1 ==> text[i] != text[begin]))
  }

  /** Blanks, a title that may be missing, blanks, and the closing parenthesis. */
  ghost predicate ClosesLink(text: string, start: nat, begin: nat, end: nat, stop: nat) {
    && start <= begin <= end < stop <= |text| && Title(text, begin, end) && text[stop - 1] == ')'
    && (forall i :: start <= i < begin || end <= i < stop - 1 ==> IsSpace(text[i]))
  }

  lemma {:induction false} SpacesAll(text: string, at: nat)
    requires at <= |text|
    ensures forall i :: at <= i < SpacesEnd(text, at) ==> IsSpace(text[i])
    ensures SpacesEnd(text, at) < |text| ==> !IsSpace(text[SpacesEnd(text, at)])
    decreases |text| - at
  {
    if at < |text| && IsSpace(text[at]) {
      SpacesAll(text, at + 1);
    }
  }

  lemma {:induction false} NextFirst(text: string, at: nat, c: char)
    requires at <= |text| && NextOf(text, at, c).Some?
    ensures forall i :: at <= i < NextOf(text, at, c).value ==> text[i] != c
    decreases |text| - at
  {
    if text[at] != c {
      NextFirst(text, at + 1, c);
    }
  }

  /** The scan finds a closing exactly when there is one to find. */
  lemma ClosingMeans(text: string, start: nat, stop: nat)
    requires start <= |text|
    ensures ClosingStop(text, start) == Some(stop) <==> exists begin: nat, end: nat :: ClosesLink(text, start, begin, end, stop)
  {
    hide IsSpace;
    var begin := SpacesEnd(text, start);
    SpacesAll(text, start);
    var title := TitleEnd(text, begin);
    if ClosingStop(text, start) == Some(stop) {
      SpacesAll(text, title.value);
      if begin < |text| && text[begin] in "\"'" {
        NextFirst(text, begin + 1, text[begin]);
      }
      assert ClosesLink(text, start, begin, title.value, stop);
    }
    if begin', end: nat :| ClosesLink(text, start, begin', end, stop) {
      ClosingFound(text, start, begin', end, stop);
    }
  }

  lemma ClosingFound(text: string, start: nat, begin: nat, end: nat, stop: nat)
    requires ClosesLink(text, start, begin, end, stop)
    ensures ClosingStop(text, start) == Some(stop)
  {
    NoSpaces();
    hide IsSpace;
    SpacesUpTo(text, end, stop - 1);
    if begin < end {
      SpacesUpTo(text, start, begin);
      if text[begin] == '(' {
        assert ParenEnd(text, begin + 1) == end - 1;
      } else {
        NextAt(text, begin + 1, text[begin], Some(end - 1));
      }
    } else {
      SpacesUpTo(text, start, stop - 1);
      SpacesUpTo(text, stop - 1, stop - 1);
    }
  }

  lemma NoSpaces()
    ensures !IsSpace(')') && !IsSpace('(') && !IsSpace('"') && !IsSpace('\'') && !IsSpace('\\')
  {
  }

  /** The rest of an inline link: blanks, an optional title, blanks, and the closing parenthesis. */
  method LinkClosing(text: string, start: nat) returns (end: Option<nat>)
    requires start <= |text|
    ensures end == ClosingStop(text, start)
  {
    hide IsSpace, SpacesEnd, NextOf;
    var cursor := SkipSpaces(text, start);
    if cursor < |text| && text[cursor] in "\"'" {
      var close := Find(text, cursor + 1, text[cursor]);
      if close.None? {
        return None;
      }
      cursor := close.value + 1;
    } else if cursor < |text| && text[cursor] == '(' {
      var inner := cursor + 1;
      while inner < |text| && text[inner] !in "()"
        invariant cursor < inner <= |text| && ParenEnd(text, cursor + 1) == ParenEnd(text, inner)
      {
        inner := inner + 1;
      }
      if inner == |text| || text[inner] == '(' {
        return None;
      }
      cursor := inner + 1;
    }
    cursor := SkipSpaces(text, cursor);
    end := if cursor < |text| && text[cursor] == ')' then Some(cursor + 1) else None;
  }

  /** A destination and the rest of its link. */
  function LinkStop(text: string, start: nat): (end: Option<nat>)
    requires start <= |text|
    ensures end.Some? ==> start < end.value <= |text| && text[end.value - 1] == ')'
  {
    var stop := DestinationStop(text, start);
    if stop.None? || !(start <= stop.value <= |text|) then None else ClosingStop(text, stop.value)
  }

  /** A link ends where the rest of it does, read from the end of its destination, which lies within the text. */
  lemma LinkMeans(text: string, start: nat, end: nat)
    requires start <= |text|
    ensures LinkStop(text, start) == Some(end) <==>
              exists at: nat, stop: nat, begin: nat, after: nat ::
                EndsDestination(text, start, at, stop) && stop <= |text| && ClosesLink(text, stop, begin, after, end)
  {
    hide DestinationStop, ClosingStop, EndsDestination, ClosesLink;
    if LinkStop(text, start) == Some(end) {
      var stop := DestinationStop(text, start).value;
      DestinationMeans(text, start, stop);
      ClosingMeans(text, stop, end);
      var at: nat :| EndsDestination(text, start, at, stop);
      var begin: nat, after: nat :| ClosesLink(text, stop, begin, after, end);
    }
    if at: nat, stop: nat, begin: nat, after: nat :|
      EndsDestination(text, start, at, stop) && stop <= |text| && ClosesLink(text, stop, begin, after, end) {
      DestinationMeans(text, start, stop);
      ClosingMeans(text, stop, end);
      EndsAfter(text, start, at, stop);
    }
  }

  lemma EndsAfter(text: string, start: nat, begin: nat, stop: nat)
    requires EndsDestination(text, start, begin, stop)
    ensures start <= stop
  {
    hide IsSpace, Escaped, Height;
  }

  method InlineDestination(text: string, start: nat) returns (end: Option<nat>)
    requires start <= |text|
    ensures end == LinkStop(text, start)
  {
    var parsed := Destination(text, start);
    if parsed.None? || parsed.value.stop > |text| {
      return None;
    }
    end := LinkClosing(text, parsed.value.stop);
  }

  /** Where a tag whose inside is read from `at` ends: quoted values are skipped. */
  function TagStop(text: string, at: nat): (end: Option<nat>)
    requires at <= |text|
    ensures end.Some? ==> at < end.value <= |text| && text[end.value - 1] == '>'
    decreases |text| - at
  {
    if at == |text| then None
    else if text[at] == '>' then Some(at + 1)
    else if text[at] in "\"'" then
      var close := NextOf(text, at + 1, text[at]);
      if close.None? then None else TagStop(text, close.value + 1)
    else TagStop(text, at + 1)
  }

  /** The quote that is open before `upto`, reading character by character from `at`. */
  function Quoted(text: string, at: nat, upto: nat): Option<char>
    requires at <= upto <= |text|
  {
    if at == upto then None
    else
      var before, c := Quoted(text, at, upto - 1), text[upto - 1];
      if before.Some? then if c == before.value then None else before
      else if c in "\"'" then Some(c) else None
  }

  lemma {:induction false} QuotedOn(text: string, at: nat, middle: nat, upto: nat)
    requires at <= middle <= upto <= |text| && Quoted(text, at, middle).None?
    ensures Quoted(text, at, upto) == Quoted(text, middle, upto)
  {
    if middle < upto {
      QuotedOn(text, at, middle, upto - 1);
    }
  }

  lemma {:induction false} QuotedHeld(text: string, at: nat, upto: nat)
    requires at < upto <= |text| && text[at] in "\"'" && forall i :: at < i < upto ==> text[i] != text[at]
    ensures Quoted(text, at, upto) == Some(text[at])
  {
    if at + 1 < upto {
      QuotedHeld(text, at, upto - 1);
    }
  }

  /** A tag ends with the first closing bracket outside quoted values. */
  ghost predicate EndsTag(text: string, at: nat, end: nat) {
    && at < end <= |text| && text[end - 1] == '>' && Quoted(text, at, end - 1).None?
    && forall i :: at <= i < end - 1 && text[i] == '>' ==> Quoted(text, at, i).Some?
  }

  lemma {:induction false} TagMeans(text: string, at: nat, end: nat)
    requires at <= |text|
    ensures TagStop(text, at) == Some(end) <==> EndsTag(text, at, end)
    decreases |text| - at
  {
    if at < |text| && text[at] != '>' {
      var next := at + 1;
      if text[at] in "\"'" {
        var close := NextOf(text, at + 1, text[at]);
        if close.None? {
          NeverEnds(text, at, end);
          return;
        }
        NextFirst(text, at + 1, text[at]);
        next := close.value + 1;
        QuotedHeld(text, at, close.value);
      }
      TagMeans(text, next, end);
      TagSkip(text, at, next, end);
    }
  }

  /** Reading on from where no quote is open. */
  lemma TagSkip(text: string, at: nat, next: nat, end: nat)
    requires at < next <= |text| && text[at] != '>'
    requires if text[at] in "\"'" then at + 1 < next && text[next - 1] == text[at] && forall i :: at < i < next - 1 ==> text[i] != text[at]
             else next == at + 1
    ensures EndsTag(text, at, end) <==> EndsTag(text, next, end)
  {
    forall i | at < i < next
      ensures Quoted(text, at, i).Some?
    {
      QuotedHeld(text, at, i);
    }
    assert Quoted(text, at, next).None? by {
      if text[at] in "\"'" {
        QuotedHeld(text, at, next - 1);
      }
    }
    forall i | next <= i <= |text|
      ensures Quoted(text, at, i) == Quoted(text, next, i)
    {
      QuotedOn(text, at, next, i);
    }
  }

  lemma NeverEnds(text: string, at: nat, end: nat)
    requires at < |text| && text[at] in "\"'" && NextOf(text, at + 1, text[at]).None?
    ensures !EndsTag(text, at, end)
  {
    if at + 1 < end <= |text| {
      NoNext(text, at + 1, text[at]);
      QuotedHeld(text, at, end - 1);
    }
  }

  lemma {:induction false} NoNext(text: string, at: nat, c: char)
    requires at <= |text| && NextOf(text, at, c).None?
    ensures forall i :: at <= i < |text| ==> text[i] != c
    decreases |text| - at
  {
    if at < |text| {
      NoNext(text, at + 1, c);
    }
  }

  /** An HTML tag: quoted attribute values may hold a closing angle bracket. */
  method TagEnd(text: string, start: nat) returns (end: Option<nat>)
    requires start < |text| && text[start] == '<'
    ensures end == TagStop(text, start + 1)
  {
    var cursor := start + 1;
    while cursor < |text|
      invariant start < cursor <= |text| && TagStop(text, start + 1) == TagStop(text, cursor)
    {
      if text[cursor] == '>' {
        return Some(cursor + 1);
      }
      if text[cursor] in "\"'" {
        var close := Find(text, cursor + 1, text[cursor]);
        if close.None? {
          return None;
        }
        cursor := close.value + 1;
      } else {
        cursor := cursor + 1;
      }
    }
    end := None;
  }

  /** Where literal markup at `at` ends, if there is any: the rest of an inline link, or a tag. */
  function LiteralStop(text: string, at: nat): (end: Option<nat>)
    requires at < |text|
    ensures end.Some? ==> at < end.value <= |text| && text[end.value - 1] in ")>" && text[at] in "]<"
  {
    if text[at] == ']' && at + 1 < |text| && text[at + 1] == '(' then LinkStop(text, at + 2)
    else if text[at] == '<' then TagStop(text, at + 1)
    else None
  }

  /** Literal markup: after a closing bracket and an opening parenthesis the rest of a link, or a tag. */
  lemma LiteralMeans(text: string, at: nat, end: nat)
    requires at < |text|
    ensures LiteralStop(text, at) == Some(end) <==>
              || (at + 2 <= |text| && text[at..at + 2] == "](" && LinkStop(text, at + 2) == Some(end))
              || (text[at] == '<' && EndsTag(text, at + 1, end))
  {
    hide LinkStop, TagStop, EndsTag;
    TagMeans(text, at + 1, end);
    if at + 2 <= |text| {
      assert text[at..at + 2][0] == text[at] && text[at..at + 2][1] == text[at + 1];
    }
  }

  method LiteralMarkupEnd(text: string, start: nat) returns (end: Option<nat>)
    requires start < |text|
    ensures end == LiteralStop(text, start)
  {
    if start + 2 <= |text| && text[start..start + 2] == "](" {
      assert text[start..start + 2][0] == ']' && text[start..start + 2][1] == '(';
      end := InlineDestination(text, start + 2);
      if end.Some? {
        return;
      }
    }
    if text[start] == '<' {
      end := TagEnd(text, start);
      return;
    }
    end := None;
  }
}
