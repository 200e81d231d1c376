/** What the commands of the memcached protocol look like, what they mean, and what is replied. */
module MemcacheProtocol {
  import opened Wrappers
  import opened Text
  import opened MemcacheItem
  import opened MemcacheSession
  import B = Buffer
  import L = LogStream
  import S = MemcacheServer

  // ---------- lines of words ----------

  /** Words with a space between each two. */
  function Spaced(words: seq<string>): string {
    if words == [] then "" else if |words| == 1 then words[0] else words[0] + " " + Spaced(words[1..])
  }

  predicate AreWords(words: seq<string>) { forall w <- words :: IsWord(w) }

  lemma {:induction false} WordsBack(words: seq<string>)
    requires AreWords(words)
    ensures Tokens(Spaced(words)) == words
  {
    if |words| == 1 {
      FirstWord(words[0], "");
      assert words == [words[0]];
    } else if words != [] {
      hide Tokens;
      WordsBack(words[1..]);
      FirstWord(words[0], Spaced(words[1..]));
    }
  }

  lemma {:induction false} SpacedLast(words: seq<string>, w: string)
    requires words != []
    ensures Spaced(words + [w]) == Spaced(words) + " " + w
  {
    if |words| == 1 {
      assert words + [w] == [words[0], w] && [words[0], w][1..] == [w];
    } else {
      assert (words + [w])[1..] == words[1..] + [w];
      SpacedLast(words[1..], w);
    }
  }

  /** A line asks for no reply if and only if its last word, behind another one, is noreply. */
  lemma NoreplyIff(words: seq<string>)
    requires AreWords(words) && words != []
    ensures HasNoreply(Spaced(words)) <==> |words| >= 2 && words[|words| - 1] == "noreply"
  {
    hide HasNoreply, Spaced, IsWord;
    assert words[|words| - 1] in words;
    if |words| == 1 {
      OneWord(words);
      NoSpaceNoNoreply(words[0]);
    } else {
      LastSpaced(words);
      LastWordNoreply(Spaced(words[..|words| - 1]), words[|words| - 1]);
    }
  }

  lemma OneWord(words: seq<string>)
    requires |words| == 1 && AreWords(words)
    ensures Spaced(words) == words[0] && ' ' !in words[0]
  {
    assert words[0] in words;
  }

  lemma LastSpaced(words: seq<string>)
    requires |words| >= 2
    ensures Spaced(words) == Spaced(words[..|words| - 1]) + " " + words[|words| - 1]
  {
    hide Spaced;
    assert words == words[..|words| - 1] + [words[|words| - 1]];
    SpacedLast(words[..|words| - 1], words[|words| - 1]);
  }

  lemma NoSpaceNoNoreply(s: string)
    requires ' ' !in s
    ensures !HasNoreply(s)
  {
    if |s| >= 8 { assert s[|s| - 8..][0] == s[|s| - 8] != ' '; }
  }

  lemma LastWordNoreply(front: string, last: string)
    requires IsWord(last)
    ensures HasNoreply(front + " " + last) <==> last == "noreply"
  {
    var s := front + " " + last;
    if |last| >= 8 {
      assert s[|s| - 8..][0] == s[|s| - 8] == last[|last| - 8] && last[|last| - 8] in last;
    } else if |last| == 7 {
      assert s[|s| - 8..] == " " + last;
      assert NOREPLY == " " + "noreply" && (" " + last)[1..] == last;
    } else if |s| >= 8 {
      var k := 7 - |last|;
      assert s[|s| - 8..][k] == s[|front|] == ' ';
      LaterNoSpace(k);
    }
  }

  lemma LaterNoSpace(k: nat)
    requires 0 < k < 8
    ensures |NOREPLY| == 8 && NOREPLY[k] != ' '
  {
  }

  lemma ParsedWith(line: string, body: string, noreply: bool)
    requires HasNoreply(line) == noreply
    requires body == if noreply then line[..|line| - |NOREPLY|] else line
    ensures ParseLine(line) == LineOf(Tokens(body), noreply)
  {
    hide Tokens, LineOf, HasNoreply;
  }

  /** So a line of words is understood by its words, without the noreply at its end. */
  lemma LineOfWords(words: seq<string>, noreply: bool)
    requires AreWords(words) && words != [] && (noreply || |words| == 1 || words[|words| - 1] != "noreply")
    ensures ParseLine(Spaced(words + End(noreply))) == LineOf(words, noreply)
  {
    hide Tokens, LineOf, HasNoreply, IsWord, ParseLine, Spaced;
    WordsBack(words);
    if noreply {
      NoreplyLine(words);
      ParsedWith(Spaced(words + ["noreply"]), Spaced(words), true);
    } else {
      assert words + [] == words;
      NoreplyIff(words);
      ParsedWith(Spaced(words), Spaced(words), false);
    }
  }

  lemma NoreplyLine(words: seq<string>)
    requires AreWords(words) && words != []
    ensures
      var line := Spaced(words + ["noreply"]);
      HasNoreply(line) && |line| >= |NOREPLY| && line[..|line| - |NOREPLY|] == Spaced(words)
  {
    hide Spaced, HasNoreply, IsWord;
    NoreplyIsWord();
    var all := words + ["noreply"];
    assert all[|all| - 1] == "noreply";
    NoreplyIff(all);
    SpacedLast(words, "noreply");
    assert Spaced(words) + " " + "noreply" == Spaced(words) + NOREPLY;
  }

  lemma NoreplyIsWord()
    ensures IsWord("noreply")
  {
  }

  // ---------- what the lines mean ----------

  function End(noreply: bool): seq<string> { if noreply then ["noreply"] else [] }

  /** The words of the protocol that are not updates. */
  lemma NoPolicy(word: string)
    requires word in {"get", "gets", "delete", "version", "quit", "shutdown"}
    ensures PolicyOf(word) == S.Invalid && IsWord(word)
  {
  }

  /** get and gets name keys. */
  lemma GetUnderstood(word: string, keys: seq<string>, noreply: bool)
    requires (word == "get" || word == "gets") && AreWords(keys)
    requires noreply || keys == [] || keys[|keys| - 1] != "noreply"
    ensures ParseLine(Spaced([word] + keys + End(noreply))) == Whole(Get(keys, word == "gets", noreply))
  {
    hide Tokens, Spaced, ParseLine, LineOf, IsWord, AreWords, End;
    NoPolicy(word);
    MoreWords(word, keys);
    LineOfGet(word, keys, noreply);
    var words := [word] + keys;
    assert keys != [] ==> words[|words| - 1] == keys[|keys| - 1];
    LineOfWords(words, noreply);
  }

  lemma MoreWords(word: string, words: seq<string>)
    requires IsWord(word) && AreWords(words)
    ensures AreWords([word] + words)
  {
    hide IsWord;
  }

  lemma LineOfGet(word: string, keys: seq<string>, noreply: bool)
    requires word == "get" || word == "gets"
    ensures LineOf([word] + keys, noreply) == Whole(Get(keys, word == "gets", noreply))
  {
    hide PolicyOf, ParseUpdate, ParseDelete;
    NoPolicy(word);
    assert ([word] + keys)[1..] == keys;
  }

  /** delete names one key of at most 250 characters. */
  lemma DeleteUnderstood(key: string, noreply: bool)
    requires IsWord(key) && (noreply || key != "noreply")
    ensures ParseLine(Spaced(["delete", key] + End(noreply))) ==
      Whole(if |key| <= 250 then Delete(key, noreply)
            else Answer("CLIENT_ERROR bad command line format\r\n", noreply))
  {
    hide Tokens, Spaced, ParseLine, PolicyOf, ParseUpdate, IsWord;
    NoPolicy("delete");
    LineOfWords(["delete", key], noreply);
    assert ["delete", key][1..] == [key];
  }

  /** Behind the key only a 0 is taken. */
  lemma DeleteWithMore(args: seq<string>, noreply: bool)
    requires AreWords(args) && |args| >= 2 && (noreply || args[|args| - 1] != "noreply")
    ensures ParseLine(Spaced(["delete"] + args + End(noreply))) ==
      Whole(if |args[0]| > 250 then Answer("CLIENT_ERROR bad command line format\r\n", noreply)
            else if args[1] == "0" then Delete(args[0], noreply)
            else Answer("CLIENT_ERROR bad command line format. Usage: delete <key> [noreply]\r\n", noreply))
  {
    hide Tokens, Spaced, ParseLine, LineOf, IsWord, AreWords, End, PolicyOf;
    NoPolicy("delete");
    MoreWords("delete", args);
    LineOfDelete(args, noreply);
    var words := ["delete"] + args;
    assert words[|words| - 1] == args[|args| - 1];
    LineOfWords(words, noreply);
  }

  lemma LineOfDelete(args: seq<string>, noreply: bool)
    ensures LineOf(["delete"] + args, noreply) == ParseDelete(args, noreply)
  {
    hide PolicyOf, ParseUpdate, ParseDelete;
    NoPolicy("delete");
    assert (["delete"] + args)[1..] == args;
  }

  lemma VersionUnderstood(noreply: bool)
    ensures ParseLine(Spaced(["version"] + End(noreply))) == Whole(Answer("VERSION 0.01 cnet\r\n", noreply))
  {
    hide Tokens, Spaced, ParseLine, PolicyOf, ParseUpdate, IsWord;
    NoPolicy("version");
    LineOfWords(["version"], noreply);
  }

  lemma QuitUnderstood(word: string, noreply: bool)
    requires word == "quit" || word == "shutdown"
    ensures ParseLine(Spaced([word] + End(noreply))) == Whole(Quit)
  {
    hide Tokens, Spaced, ParseLine, PolicyOf, ParseUpdate, IsWord;
    NoPolicy(word);
    LineOfWords([word], noreply);
  }

  /** The words of the protocol. */
  predicate IsVerb(w: string) {
    w in {"set", "add", "replace", "append", "prepend", "cas", "get", "gets", "delete", "version", "quit", "shutdown"}
  }

  /** Any other first word is an error. */
  lemma UnknownWord(words: seq<string>, noreply: bool)
    requires AreWords(words) && words != [] && !IsVerb(words[0])
    requires noreply || |words| == 1 || words[|words| - 1] != "noreply"
    ensures ParseLine(Spaced(words + End(noreply))) == Whole(Answer("ERROR\r\n", noreply))
  {
    hide Tokens, Spaced, ParseLine, LineOf, IsWord, IsVerb;
    LineOfWords(words, noreply);
    LineOfUnknown(words, noreply);
  }

  lemma LineOfUnknown(words: seq<string>, noreply: bool)
    requires words != [] && !IsVerb(words[0])
    ensures LineOf(words, noreply) == Whole(Answer("ERROR\r\n", noreply))
  {
    NotVerb(words[0]);
    hide PolicyOf, ParseUpdate, ParseDelete, IsVerb;
  }

  lemma NotVerb(w: string)
    requires !IsVerb(w)
    ensures PolicyOf(w) == S.Invalid && w != "get" && w != "gets" && w != "delete" && w != "version"
    ensures w != "quit" && w != "shutdown"
  {
  }

  /** The policies and their words. */
  predicate Means(verb: string, policy: S.Policy) {
    || (verb == "set" && policy == S.Set) || (verb == "add" && policy == S.Add)
    || (verb == "replace" && policy == S.Replace) || (verb == "append" && policy == S.Append)
    || (verb == "prepend" && policy == S.Prepend) || (verb == "cas" && policy == S.Cas)
  }

  /** An update names its key, flags, expiry and size, and cas a version at the end. A value of more than 1048576
      bytes is skipped. The two bytes behind the value are counted with it. Flags and size are cut to 32 bits; a size
      that is then negative, or overflows with those two bytes, is not defined. */
  lemma UpdateUnderstood(verb: string, policy: S.Policy, key: string, flags: nat, expiry: nat, size: nat, cas: nat,
    noreply: bool)
    requires Means(verb, policy) && IsWord(key) && |key| < 250
    requires flags < TWO_64 && expiry < TWO_64 && size < TWO_64 && cas < TWO_64
    ensures
      var bytes := size % 0x1_0000_0000;
      var numbers := [L.Decimal(flags), L.Decimal(expiry), L.Decimal(size)];
      ParseLine(Spaced([verb, key] + numbers + (if policy == S.Cas then [L.Decimal(cas)] else []) + End(noreply))) ==
        if bytes >= 0x7FFF_FFFE then Undefined
        else if bytes > 1048576 then Skips(policy, key, bytes + 2, noreply)
        else Wants(policy, key, flags % 0x1_0000_0000, if policy == S.Cas then cas else 0, bytes + 2, noreply)
  {
    hide L.Decimal, ReadU64, Tokens, ParseUpdate;
    var numbers := [L.Decimal(flags), L.Decimal(expiry), L.Decimal(size)]
      + if policy == S.Cas then [L.Decimal(cas)] else [];
    var words := [verb, key] + numbers;
    NumbersAreWords(flags, expiry, size, cas);
    LineOfWords(words, noreply);
    assert words[1..] == [key] + numbers;
    assert words + End(noreply) == [verb, key] + [L.Decimal(flags), L.Decimal(expiry), L.Decimal(size)]
      + (if policy == S.Cas then [L.Decimal(cas)] else []) + End(noreply);
    UpdateNumbers(policy, key, flags, expiry, size, cas, noreply);
  }

  lemma NumbersAreWords(flags: nat, expiry: nat, size: nat, cas: nat)
    ensures forall v <- [flags, expiry, size, cas] :: IsWord(L.Decimal(v)) && L.Decimal(v) != "noreply"
  {
    forall v | v in [flags, expiry, size, cas] ensures IsWord(L.Decimal(v)) && L.Decimal(v) != "noreply" {
      DecimalIsWord(v);
      assert 'y' in "noreply" by { assert "noreply"[6] == 'y'; }
    }
  }

  lemma UpdateNumbers(policy: S.Policy, key: string, flags: nat, expiry: nat, size: nat, cas: nat, noreply: bool)
    requires |key| < 250 && flags < TWO_64 && expiry < TWO_64 && size < TWO_64 && cas < TWO_64
    ensures
      var bytes := size % 0x1_0000_0000;
      var numbers := [L.Decimal(flags), L.Decimal(expiry), L.Decimal(size)]
        + if policy == S.Cas then [L.Decimal(cas)] else [];
      ParseUpdate(policy, [key] + numbers, noreply) ==
        if bytes >= 0x7FFF_FFFE then Undefined
        else if bytes > 1048576 then Skips(policy, key, bytes + 2, noreply)
        else Wants(policy, key, flags % 0x1_0000_0000, if policy == S.Cas then cas else 0, bytes + 2, noreply)
  {
    hide L.Decimal, ReadU64;
    ReadsBack(flags);
    ReadsBack(expiry);
    ReadsBack(size);
    ReadsBack(cas);
    var numbers := [L.Decimal(flags), L.Decimal(expiry), L.Decimal(size)]
      + if policy == S.Cas then [L.Decimal(cas)] else [];
    assert ([key] + numbers)[1..] == numbers;
  }

  /** An update with a key is refused if and only if the key has 250 characters or more, or a number is missing or is
      none. */
  lemma UpdateRefusedIff(policy: S.Policy, args: seq<string>, noreply: bool)
    requires args != []
    ensures
      ParseUpdate(policy, args, noreply) == Whole(Answer("CLIENT_ERROR bad command line format\r\n", noreply)) <==>
      |args[0]| >= 250 || |args| < (if policy == S.Cas then 5 else 4)
      || exists i :: 1 <= i < (if policy == S.Cas then 5 else 4) && ReadU64(args[i]).None?
  {
    hide ReadU64, UpdateOf;
    var numbers := args[1..];
    assert forall i :: 0 <= i < |numbers| ==> numbers[i] == args[i + 1];
    assert forall i :: 1 <= i < |args| ==> args[i] == numbers[i - 1];
  }

  // ---------- commands in a stream ----------

  lemma LineEndsThere(line: string, rest: string)
    requires forall k :: !B.CrlfAt(line, k)
    ensures
      var s := line + "\r\n" + rest;
      B.FindCRLF(s) == |line| && s[..|line|] == line && s[|line| + 2..] == rest
  {
    hide B.FindCRLF;
    var s := line + "\r\n" + rest;
    assert B.CrlfAt(s, |line|);
    forall k | 0 <= k < |line| ensures !B.CrlfAt(s, k) {
      assert k + 1 < |line| ==> (B.CrlfAt(s, k) <==> B.CrlfAt(line, k));
      assert k + 1 == |line| ==> s[k + 1] == '\r';
    }
  }

  /** A line with a whole command in a stream. */
  lemma CommandOfLine(line: string, rest: string)
    requires (forall k :: !B.CrlfAt(line, k)) && ParseLine(line).Whole?
    ensures Commands(line + "\r\n" + rest) == [ParseLine(line).command] + Commands(rest)
  {
    LineEndsThere(line, rest);
    hide B.FindCRLF, ParseLine;
  }

  /** A line that wants a value, with the value behind it: the bytes of the value, and the two that are to end it, are
      those of the command, or are skipped if the value is too long. */
  lemma CommandOfUpdate(line: string, data: string, rest: string)
    requires (forall k :: !B.CrlfAt(line, k)) && (ParseLine(line).Wants? || ParseLine(line).Skips?)
    requires |data| == ParseLine(line).size
    ensures |data| >= 2
    ensures
      var l := ParseLine(line);
      Commands(line + "\r\n" + (data + rest)) ==
        [if l.Wants? then Store(l.policy, l.key, l.flags, l.cas, data, l.noreply) else TooLarge(l.key, l.noreply)]
        + Commands(rest)
  {
    LineEndsThere(line, data + rest);
    assert (data + rest)[..|data|] == data && (data + rest)[|data|..] == rest;
    hide B.FindCRLF, ParseLine;
  }

  // ---------- numbers ----------

  /** Digits are read as their number, at most the greatest 64-bit one; a minus sign negates modulo 2 to the 64. */
  lemma NumbersRead(v: nat)
    ensures ReadU64(L.Decimal(v)) == Some(if v < 0x1_0000_0000_0000_0000 then v else 0xFFFF_FFFF_FFFF_FFFF)
    ensures ReadU64("+" + L.Decimal(v)) == ReadU64(L.Decimal(v))
    ensures ReadU64("-" + L.Decimal(v)) ==
      Some(if v < 0x1_0000_0000_0000_0000 then (0x1_0000_0000_0000_0000 - v) % 0x1_0000_0000_0000_0000
           else 0xFFFF_FFFF_FFFF_FFFF)
  {
    hide L.Natural, L.Value, L.IsNatural, ReadU64;
    L.NaturalIs(v, 10);
    SignedDigits(L.Natural(v, 10));
  }

  /** Decimal digits, at least one. */
  predicate IsDigits(s: string) { s != "" && forall c <- s :: '0' <= c <= '9' }

  /** White space, a sign or none, and digits. */
  ghost predicate IsNumber(word: string, spaces: string, sign: string, digits: string) {
    && word == spaces + sign + digits && AllSpace(spaces) && IsDigits(digits)
    && (sign == "" || sign == "+" || sign == "-")
  }

  /** A word is read as a number if and only if it is one. */
  lemma NumberIff(word: string)
    ensures ReadU64(word).Some? <==> exists spaces, sign, digits :: IsNumber(word, spaces, sign, digits)
  {
    hide ReadU64;
    if ReadU64(word).Some? { ReadIsNumber(word); }
    forall spaces, sign, digits | IsNumber(word, spaces, sign, digits) ensures ReadU64(word).Some? {
      NumberIsRead(word, spaces, sign, digits);
    }
  }

  lemma ReadIff(word: string)
    ensures
      var t := TrimLeft(word);
      var digits := if t != "" && (t[0] == '-' || t[0] == '+') then t[1..] else t;
      ReadU64(word).Some? <==> IsDigits(digits)
  {
    hide TrimLeft, L.Value;
    var t := TrimLeft(word);
    var digits := if t != "" && (t[0] == '-' || t[0] == '+') then t[1..] else t;
    assert L.AllDigits(digits, 10) <==> forall c <- digits :: '0' <= c <= '9';
    hide L.AllDigits, IsDigits;
    assert IsDigits(digits) <==> digits != "" && L.AllDigits(digits, 10);
  }

  lemma ReadIsNumber(word: string)
    requires ReadU64(word).Some?
    ensures exists spaces, sign, digits :: IsNumber(word, spaces, sign, digits)
  {
    ReadIff(word);
    LeftSpace(word);
    hide ReadU64, TrimLeft, AllSpace, IsDigits;
    var t := TrimLeft(word);
    var n := if t != "" && (t[0] == '-' || t[0] == '+') then 1 else 0;
    assert word == word[..|word| - |t|] + t[..n] + t[n..];
    assert IsNumber(word, word[..|word| - |t|], t[..n], t[n..]);
  }

  lemma NumberIsRead(word: string, spaces: string, sign: string, digits: string)
    requires IsNumber(word, spaces, sign, digits)
    ensures ReadU64(word).Some?
  {
    hide ReadU64, TrimLeft, AllSpace;
    SignedFirst(sign, digits);
    hide IsDigits;
    SpacesTrimmed(spaces, sign + digits);
    assert word == spaces + (sign + digits);
    ReadIff(word);
  }

  lemma SignedFirst(sign: string, digits: string)
    requires IsDigits(digits) && (sign == "" || sign == "+" || sign == "-")
    ensures
      var t := sign + digits;
      t != "" && !IsSpace(t[0]) && digits == if t[0] == '-' || t[0] == '+' then t[1..] else t
  {
    var t := sign + digits;
    assert digits[0] in digits;
    if sign == "" {
      assert t == digits;
    } else {
      assert t[0] == sign[0] && t[1..] == digits;
    }
  }

  lemma SignedDigits(s: string)
    requires L.IsNatural(s, 10) && L.Value(s, 10) >= 0
    ensures
      var v := L.Value(s, 10);
      var most := if v < TWO_64 then v else TWO_64 - 1;
      && ReadU64(s) == Some(most) && ReadU64("+" + s) == Some(most)
      && ReadU64("-" + s) == Some(if v < TWO_64 then (TWO_64 - v) % TWO_64 else most)
  {
    hide ReadU64, L.Value, L.AllDigits;
    DigitsTrimmed(s);
    SignStays("+" + s);
    SignStays("-" + s);
    assert ("+" + s)[1..] == s && ("-" + s)[1..] == s;
    ReadDigits(s, s);
    ReadDigits("+" + s, s);
    ReadDigits("-" + s, s);
  }

  lemma ReadDigits(word: string, digits: string)
    requires word != "" && TrimLeft(word) == word && digits != "" && L.AllDigits(digits, 10) && L.Value(digits, 10) >= 0
    requires digits == if word[0] == '-' || word[0] == '+' then word[1..] else word
    ensures
      var v := L.Value(digits, 10);
      ReadU64(word) == Some(if v >= TWO_64 then TWO_64 - 1 else if word[0] == '-' then (TWO_64 - v) % TWO_64 else v)
  {
    hide L.Value, L.AllDigits, TrimLeft;
  }

  lemma SignStays(s: string)
    requires s != "" && (s[0] == '+' || s[0] == '-')
    ensures TrimLeft(s) == s
  {
  }

  // ---------- replies ----------

  /** The answers of the server to updates and deletions tell what was done. */
  lemma RepliesTell(w: World, policy: S.Policy, key: string, flags: nat, cas: nat, data: string)
    requires S.WellTerminated(w.store) && w.connected && policy != S.Invalid && |data| >= 2
    ensures
      var (r, now) := (Reply(w, Store(policy, key, flags, cas, data, false)),
                       Exec(w, Store(policy, key, flags, cas, data, false)).store);
      if !EndsWithCRLF(data) then r == "CLIENT_ERROR bad data chunk\r\n" && now == w.store
      else if S.Welcome(w.store, key, S.Entry(flags, data, cas), policy)
      then r == "STORED\r\n" && key in now.entries && now.entries[key].cas == w.store.counter + 1
      else
        now == w.store && r == (if policy != S.Cas then "NOT_FOUND"
                                else if key in w.store.entries then "EXISTS" else "NOT_FOUND\r\n")
  {
    S.UpdateMeans(w.store, key, S.Entry(flags, data, cas), policy);
    hide S.Updated, EndsWithCRLF;
  }

  lemma DeletionsTell(w: World, key: string)
    requires S.WellTerminated(w.store) && w.connected
    ensures
      var (r, now) := (Reply(w, Delete(key, false)), Exec(w, Delete(key, false)).store);
      && r == (if key in w.store.entries then "DELETED\r\n" else "NOT_FOUND\r\n")
      && now.entries.Keys == w.store.entries.Keys - {key} && now.counter == w.store.counter
      && forall k <- now.entries :: now.entries[k] == w.store.entries[k]
    ensures
      var (r, now) := (Reply(w, TooLarge(key, false)), Exec(w, TooLarge(key, false)).store);
      && r == "SERVER_ERROR object too large for cache\r\n" && now.entries.Keys == w.store.entries.Keys - {key}
      && forall k <- now.entries :: now.entries[k] == w.store.entries[k]
  {
  }

  /** The same command with a reply. */
  function Loud(c: Command): Command {
    match c
    case Store(policy, key, flags, cas, data, _) => Store(policy, key, flags, cas, data, false)
    case TooLarge(key, _) => TooLarge(key, false)
    case Delete(key, _) => Delete(key, false)
    case Answer(msg, _) => Answer(msg, false)
    case _ => c
  }

  /** Without a reply, or when the connection is shutting down, updates and deletions do the same and say nothing. */
  lemma Silent(w: World, c: Command)
    requires S.WellTerminated(w.store) && IsCommand(c) && (c.Store? || c.Delete? || c.TooLarge? || c.Answer?)
    ensures c != Loud(c) || !w.connected ==> Exec(w, c).handed == w.handed
    ensures IsCommand(Loud(c)) && Exec(w, c).store == Exec(w.(connected := true), Loud(c)).store
  {
    hide S.Updated, S.Deleted;
  }

  /** What get shows of an item: a line of words with key, flags and size, and the version if asked, and the value. */
  lemma ItemShown(key: string, flags: nat, value: string, cas: nat, withCas: bool)
    requires |value| >= 2
    ensures ItemText(key, flags, value, cas, withCas) ==
      Spaced(["VALUE", key, L.Decimal(flags), L.Decimal(|value| - 2)] + (if withCas then [L.Decimal(cas)] else []))
      + "\r\n" + value
  {
    hide L.Decimal;
    var (f, n) := (L.Decimal(flags), L.Decimal(|value| - 2));
    FourSpaced(key, f, n);
    var words := ["VALUE", key, f, n];
    if withCas {
      SpacedLast(words, L.Decimal(cas));
    } else {
      assert words + [] == words;
    }
  }

  lemma FourSpaced(key: string, f: string, n: string)
    ensures Spaced(["VALUE", key, f, n]) == "VALUE " + key + (" " + f + " " + n)
  {
    assert ["VALUE", key, f, n][1..] == [key, f, n] && [key, f, n][1..] == [f, n] && [f, n][1..] == [n];
    assert Spaced([n]) == n && Spaced([f, n]) == f + " " + n && Spaced([key, f, n]) == key + " " + (f + " " + n);
    assert "VALUE" + " " == "VALUE ";
  }

  /** The item of a key, if it is there. */
  function ItemOf(st: S.Store, key: string, withCas: bool): string
    requires S.WellTerminated(st)
  {
    if key in st.entries then
      ItemText(key, st.entries[key].flags, st.entries[key].value, st.entries[key].cas, withCas)
    else ""
  }

  /** The items of the keys that are there, in the order of the keys. */
  function Items(st: S.Store, keys: seq<string>, withCas: bool): string
    requires S.WellTerminated(st)
  {
    if keys == [] then "" else ItemOf(st, keys[0], withCas) + Items(st, keys[1..], withCas)
  }

  lemma FoundIs(w: World, key: string, withCas: bool)
    requires S.WellTerminated(w.store)
    ensures Found(w, key, withCas) == w.(held := w.held + ItemOf(w.store, key, withCas))
  {
    hide ItemText;
    assert w.held + "" == w.held;
  }

  /** A get of short keys hands on what was left before, the items that are there in the order of the keys, and END. */
  lemma {:induction false} GetShows(w: World, keys: seq<string>, withCas: bool, noreply: bool)
    requires S.WellTerminated(w.store) && forall k <- keys :: |k| <= 250
    ensures GetAll(w, keys, withCas, noreply) ==
      w.(handed := w.handed + (w.held + Items(w.store, keys, withCas)) + "END\r\n", held := "")
    decreases |keys|
  {
    hide ItemOf, Found;
    if keys == [] {
      assert w.held + "" == w.held;
    } else {
      assert keys[0] in keys;
      FoundIs(w, keys[0], withCas);
      GetShows(Found(w, keys[0], withCas), keys[1..], withCas, noreply);
      Grouped(w.held, ItemOf(w.store, keys[0], withCas), Items(w.store, keys[1..], withCas));
    }
  }

  lemma Grouped(a: string, b: string, c: string)
    ensures (a + b) + c == a + (b + c)
  {
  }

  /** A key that is too long ends a get: it is refused, and the items found before stay for the next one. */
  lemma {:induction false} GetRefused(w: World, keys: seq<string>, long: string, rest: seq<string>, withCas: bool,
    noreply: bool)
    requires S.WellTerminated(w.store) && (forall k <- keys :: |k| <= 250) && |long| > 250
    ensures
      var r := GetAll(w, keys + [long] + rest, withCas, noreply);
      && r.store == w.store && r.connected == w.connected && r.held == w.held + Items(w.store, keys, withCas)
      && r.handed == w.handed + if noreply || !w.connected then "" else "CLIENT_ERROR bad command line format\r\n"
    decreases |keys|
  {
    hide ItemOf, Found;
    var all := keys + [long] + rest;
    if keys == [] {
      assert all[0] == long && w.held + "" == w.held && w.handed + "" == w.handed;
    } else {
      assert keys[0] in keys && all[0] == keys[0] && all[1..] == keys[1..] + [long] + rest;
      FoundIs(w, keys[0], withCas);
      GetRefused(Found(w, keys[0], withCas), keys[1..], long, rest, withCas, noreply);
      Grouped(w.held, ItemOf(w.store, keys[0], withCas), Items(w.store, keys[1..], withCas));
    }
  }

  /** What is set is what a get shows next. */
  lemma SetThenGet(w: World, key: string, flags: nat, data: string)
    requires S.WellTerminated(w.store) && w.connected && w.held == "" && |key| <= 250 && EndsWithCRLF(data)
    ensures
      Run(w, [Store(S.Set, key, flags, 0, data, false), Get([key], false, false)]).handed ==
      w.handed + "STORED\r\n" + (Spaced(["VALUE", key, L.Decimal(flags), L.Decimal(|data| - 2)]) + "\r\n" + data)
      + "END\r\n"
  {
    var c := Store(S.Set, key, flags, 0, data, false);
    SetDone(w, key, flags, data);
    RunTwo(w, c, Get([key], false, false));
    var next := Exec(w, c);
    hide Exec, Run, ItemText, EndsWithCRLF, L.Decimal, Spaced, Items;
    GetShows(next, [key], false, false);
    ItemsOfOne(next.store, key);
    ItemShown(key, flags, data, next.store.entries[key].cas, false);
    var words := ["VALUE", key, L.Decimal(flags), L.Decimal(|data| - 2)];
    assert words + [] == words;
    assert "" + Items(next.store, [key], false) == Items(next.store, [key], false);
    ExecGet(next, key);
  }

  lemma ExecGet(w: World, key: string)
    requires S.WellTerminated(w.store)
    ensures Exec(w, Get([key], false, false)) == GetAll(w, [key], false, false)
  {
    hide GetAll;
  }

  lemma SetDone(w: World, key: string, flags: nat, data: string)
    requires S.WellTerminated(w.store) && w.connected && EndsWithCRLF(data)
    ensures
      var next := Exec(w, Store(S.Set, key, flags, 0, data, false));
      && next.handed == w.handed + "STORED\r\n" && next.held == w.held && key in next.store.entries
      && next.store.entries[key].value == data && next.store.entries[key].flags == flags
  {
    S.UpdateMeans(w.store, key, S.Entry(flags, data, 0), S.Set);
    hide S.Updated;
  }

  lemma ItemsOfOne(st: S.Store, key: string)
    requires S.WellTerminated(st) && key in st.entries
    ensures Items(st, [key], false) ==
      ItemText(key, st.entries[key].flags, st.entries[key].value, st.entries[key].cas, false)
  {
    hide ItemText;
    assert [key][1..] == [] && Items(st, [], false) == "";
  }

  /** A line that does not end within 1024 bytes makes the server shut the connection down. */
  lemma LongLineClosed(w: World, bytes: string)
    requires S.WellTerminated(w.store) && B.FindCRLF(bytes) < 0
    ensures
      var (next, rest) := Consume(State(w, IDLE), bytes);
      rest == bytes && next == State(if |bytes| > 1024 then w.(connected := false) else w, IDLE)
  {
  }
}
