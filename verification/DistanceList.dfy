// The distance list that the DirectFuzz preparation script writes into the environment and
// get_vector_from_env reads back.
module DistanceList {
  import opened Decimal

  const ULLONG_MAX: nat := 0xFFFF_FFFF_FFFF_FFFF

  // ---- Writing: ",".join(...) ----

  function Join(tokens: seq<string>): string {
    if tokens == [] then ""
    else if |tokens| == 1 then tokens[0]
    else tokens[0] + "," + Join(tokens[1..])
  }

  function Texts(ds: seq<nat>): (r: seq<string>)
    ensures |r| == |ds| && forall i | 0 <= i < |ds| :: r[i] == Text(ds[i])
  {
    seq(|ds|, i requires 0 <= i < |ds| => Text(ds[i]))
  }

  // ---- Reading ----

  // std::string::find(","), |s| standing for npos.
  function Find(s: string, from: nat): (r: nat)
    requires from <= |s|
    ensures from <= r <= |s| && (r < |s| ==> s[r] == ',')
    ensures forall i | from <= i < r :: s[i] != ','
    decreases |s| - from
  {
    if from == |s| || s[from] == ',' then from else Find(s, from + 1)
  }

  function Tokens(s: string): seq<string>
    decreases |s|
  {
    var comma := Find(s, 0);
    if comma == |s| then [s] else [s[..comma]] + Tokens(s[comma + 1..])
  }

  predicate IsSpace(c: char) { c == ' ' || '\t' <= c <= '\r' }

  function SkipSpaces(s: string): string {
    if s != [] && IsSpace(s[0]) then SkipSpaces(s[1..]) else s
  }

  // The longest prefix of digits.
  function DigitPrefix(s: string): (p: string)
    ensures AllDigits(p)
  {
    if s == [] || !IsDigit(s[0]) then [] else [s[0]] + DigitPrefix(s[1..])
  }

  // strtoull(s, nullptr, 10): spaces, a sign, digits; a value out of range saturates, a negated one
  // wraps.
  function Strtoull(s: string): (r: nat)
    ensures r <= ULLONG_MAX
  {
    var t := SkipSpaces(s);
    var negative := t != [] && t[0] == '-';
    var digits := DigitPrefix(if t != [] && (t[0] == '-' || t[0] == '+') then t[1..] else t);
    var v := Value(digits);
    if v > ULLONG_MAX then ULLONG_MAX
    else if negative then (ULLONG_MAX + 1 - v) % (ULLONG_MAX + 1)
    else v
  }

  function Numbers(tokens: seq<string>): seq<nat> {
    if tokens == [] then [] else [Strtoull(tokens[0])] + Numbers(tokens[1..])
  }

  lemma {:induction false} NumbersAt(tokens: seq<string>)
    ensures |Numbers(tokens)| == |tokens| && forall i | 0 <= i < |tokens| :: Numbers(tokens)[i] == Strtoull(tokens[i])
  {
    hide Strtoull;
    if tokens != [] {
      NumbersAt(tokens[1..]);
      forall i | 0 < i < |tokens|
        ensures Numbers(tokens)[i] == Strtoull(tokens[i])
      {
        assert tokens[i] == tokens[1..][i - 1];
      }
    }
  }

  function Parse(s: string): seq<nat> { Numbers(Tokens(s)) }

  lemma {:induction false} FindFrom(s: string, pos: nat, from: nat)
    requires pos <= from <= |s|
    ensures Find(s, from) == pos + Find(s[pos..], from - pos)
    decreases |s| - from
  {
    if from < |s| && s[from] != ',' {
      FindFrom(s, pos, from + 1);
    }
  }

  lemma TokensStep(s: string)
    ensures var c := Find(s, 0);
            Tokens(s) == if c == |s| then [s] else [s[..c]] + Tokens(s[c + 1..])
  {
    hide Find;
  }

  lemma NumbersStep(token: string, rest: seq<string>)
    ensures Numbers([token] + rest) == [Strtoull(token)] + Numbers(rest)
  {
    hide Strtoull;
    assert ([token] + rest)[1..] == rest;
  }

  lemma ParseStep(s: string)
    ensures var c := Find(s, 0);
            Parse(s) == if c == |s| then [Strtoull(s)] else [Strtoull(s[..c])] + Parse(s[c + 1..])
  {
    hide Strtoull, Find, Tokens, Numbers;
    TokensStep(s);
    var c := Find(s, 0);
    if c == |s| {
      NumbersStep(s, []);
      assert [s] + [] == [s] && Numbers([]) == [] by { NoNumbers(); }
    } else {
      NumbersStep(s[..c], Tokens(s[c + 1..]));
    }
  }

  lemma NoNumbers()
    ensures Numbers([]) == []
  {
  }

  // One round of the loop: the token up to the comma is read, the rest is still to be.
  lemma ReadToken(value: string, pos: nat, comma: nat, result: seq<nat>)
    requires pos <= comma < |value| && comma == pos + Find(value[pos..], 0)
    requires Parse(value) == result + Parse(value[pos..])
    ensures Parse(value) == result + [Strtoull(value[pos..comma])] + Parse(value[comma + 1..])
  {
    hide Parse, Strtoull, Find;
    var rest := value[pos..];
    ParseStep(rest);
    assert rest[..comma - pos] == value[pos..comma];
    assert rest[comma - pos + 1..] == value[comma + 1..];
  }

  // get_vector_from_env, on the value of the variable.
  method GetVector(value: string) returns (result: seq<nat>)
    ensures result == Parse(value)
  {
    hide Parse, Strtoull, Find;
    var pos := 0;
    var commaPos := Find(value, 0);
    result := [];
    assert value[0..] == value;
    while commaPos != |value|
      invariant pos <= commaPos <= |value| && commaPos == pos + Find(value[pos..], 0)
      invariant Parse(value) == result + Parse(value[pos..])
      decreases |value| - commaPos
    {
      var token := value[pos..commaPos];
      ReadToken(value, pos, commaPos, result);
      result := result + [Strtoull(token)];
      pos := commaPos + 1;
      commaPos := Find(value, pos);
      FindFrom(value, pos, pos);
    }
    ParseStep(value[pos..]);
    result := result + [Strtoull(value[pos..])];
  }

  // ---- Round trip ----

  lemma {:induction false} FindInToken(t: string, rest: string, from: nat)
    requires from <= |t| && (forall i | 0 <= i < |t| :: t[i] != ',') && (rest == "" || rest[0] == ',')
    ensures Find(t + rest, from) == |t|
    decreases |t| - from
  {
    if from < |t| {
      FindInToken(t, rest, from + 1);
    }
  }

  lemma {:induction false} TokensOfJoin(tokens: seq<string>)
    requires tokens != []
    requires forall k | 0 <= k < |tokens| :: forall i | 0 <= i < |tokens[k]| :: tokens[k][i] != ','
    ensures Tokens(Join(tokens)) == tokens
  {
    var t := tokens[0];
    if |tokens| == 1 {
      FindInToken(t, "", 0);
      assert t + "" == t;
    } else {
      var rest := "," + Join(tokens[1..]);
      assert Join(tokens) == t + rest;
      FindInToken(t, rest, 0);
      assert (t + rest)[..|t|] == t && (t + rest)[|t| + 1..] == Join(tokens[1..]);
      TokensOfJoin(tokens[1..]);
    }
  }

  lemma {:induction false} AllDigitPrefix(s: string)
    requires AllDigits(s)
    ensures DigitPrefix(s) == s
  {
    if s != [] {
      AllDigitPrefix(s[1..]);
    }
  }

  lemma ReadsNumber(n: nat)
    ensures Strtoull(Text(n)) == if n <= ULLONG_MAX then n else ULLONG_MAX
  {
    TextDigits(n);
    TextValue(n);
    AllDigitPrefix(Text(n));
  }

  function Saturate(n: nat): nat { if n <= ULLONG_MAX then n else ULLONG_MAX }

  // Every list is read back, each number saturated to 64 bits, except that the empty list reads as
  // one zero.
  lemma ReadsList(ds: seq<nat>)
    ensures Parse(Join(Texts(ds))) == if ds == [] then [0] else seq(|ds|, i requires 0 <= i < |ds| => Saturate(ds[i]))
  {
    if ds == [] {
      assert Tokens("") == [""];
      assert Strtoull("") == 0;
    } else {
      forall k | 0 <= k < |ds|
        ensures forall i | 0 <= i < |Texts(ds)[k]| :: Texts(ds)[k][i] != ','
      {
        TextDigits(ds[k]);
      }
      TokensOfJoin(Texts(ds));
      NumbersAt(Texts(ds));
      forall k | 0 <= k < |ds|
        ensures Strtoull(Texts(ds)[k]) == Saturate(ds[k])
      {
        ReadsNumber(ds[k]);
      }
    }
  }

  // The round trip holds exactly for the non-empty lists of 64-bit numbers.
  lemma RoundTrip(ds: seq<nat>)
    ensures Parse(Join(Texts(ds))) == ds <==> ds != [] && forall i | 0 <= i < |ds| :: ds[i] <= ULLONG_MAX
  {
    ReadsList(ds);
    hide Parse, Join, Texts;
    if ds != [] && Parse(Join(Texts(ds))) == ds {
      forall i | 0 <= i < |ds|
        ensures ds[i] <= ULLONG_MAX
      {
        assert Parse(Join(Texts(ds)))[i] == Saturate(ds[i]);
      }
    }
  }
}
