/** The e-mail list extractor: addresses found in an archive's mail and
    contact files are lower-cased, collected and counted; addresses of
    systems and of the business itself are filtered out; the rest are split
    by how often they were seen, and a display name is guessed from each.

    The regular expression that finds addresses in a text is a parameter
    (`find`), and so are the archive's contents: each member's name, whether
    it is a regular file, its decoded text chunks and, for JSON, the parsed
    document. */
module EmailExtraction {
  import opened Wrappers
  import opened Text

  /** What `re.findall` with the e-mail pattern returns for a text. */
  type Finder = string -> seq<string>

  /** The extractor's state: the set of addresses seen and how often each
      was seen. A missing key counts zero, as in a `defaultdict(int)`. */
  datatype Stats = Stats(all: set<string>, counts: map<string, nat>)

  const Empty: Stats := Stats({}, map[])

  function Count(st: Stats, e: string): nat {
    if e in st.counts then st.counts[e] else 0
  }

  /** The extractor's invariant: every address seen has a positive count,
      only addresses seen have one, and every address is lower case. */
  predicate Consistent(st: Stats) {
    && st.all == st.counts.Keys
    && (forall e :: e in st.counts ==> st.counts[e] >= 1)
    && (forall e :: e in st.all ==> ToLower(e) == e)
  }

  lemma EmptyIsConsistent()
    ensures Consistent(Empty)
  {
  }

  /** One address found: it is stored lower-cased and its count goes up by
      one. */
  function AddOne(st: Stats, email: string): (r: Stats)
    ensures r.all == st.all + {ToLower(email)}
    ensures Count(r, ToLower(email)) == Count(st, ToLower(email)) + 1
    ensures forall x :: x != ToLower(email) ==> Count(r, x) == Count(st, x)
    ensures Consistent(st) ==> Consistent(r)
  {
    var e := ToLower(email);
    ToLowerIdempotent(email);
    Stats(st.all + {e}, st.counts[e := Count(st, e) + 1])
  }

  /** How many of `emails` are `x` once lower-cased. */
  function Occurrences(x: string, emails: seq<string>): nat {
    if |emails| == 0 then 0
    else (if ToLower(emails[0]) == x then 1 else 0) + Occurrences(x, emails[1..])
  }

  /** The addresses one `findall` returned, added in order. */
  function AddFound(st: Stats, emails: seq<string>): (r: Stats)
    ensures Consistent(st) ==> Consistent(r)
    decreases |emails|
  {
    if |emails| == 0 then st else AddFound(AddOne(st, emails[0]), emails[1..])
  }

  /** Every count rises by the number of times its address was found, and the
      set of addresses gains exactly the ones found. */
  lemma {:induction false} AddFoundCounts(st: Stats, emails: seq<string>, x: string)
    ensures Count(AddFound(st, emails), x) == Count(st, x) + Occurrences(x, emails)
    ensures x in AddFound(st, emails).all <==> x in st.all || Occurrences(x, emails) > 0
    decreases |emails|
  {
    if |emails| > 0 {
      AddFoundCounts(AddOne(st, emails[0]), emails[1..], x);
    }
  }

  /** Adding two lists one after the other is adding their concatenation. */
  lemma {:induction false} AddFoundAppend(st: Stats, a: seq<string>, b: seq<string>)
    ensures AddFound(AddFound(st, a), b) == AddFound(st, a + b)
    decreases |a|
  {
    if |a| == 0 {
      assert a + b == b;
    } else {
      assert (a + b)[1..] == a[1..] + b;
      AddFoundAppend(AddOne(st, a[0]), a[1..], b);
    }
  }

  /** A parsed JSON document. Numbers are integers here; the extractor never
      looks at them. */
  datatype Json =
    | JNull
    | JBool(b: bool)
    | JNumber(n: int)
    | JString(s: string)
    | JArray(items: seq<Json>)
    | JObject(entries: seq<Entry>)

  /** A key of an object and its value. */
  datatype Entry = Entry(key: string, value: Json)

  /** `extract_from_json`: only string values of objects are scanned, and only
      when they contain an `@`; objects and arrays are searched recursively;
      a string that is an array item is never scanned. */
  function ExtractFromJson(st: Stats, find: Finder, data: Json): (r: Stats)
    ensures Consistent(st) ==> Consistent(r)
    decreases data
  {
    match data
    case JObject(entries) => ExtractEntries(st, find, entries)
    case JArray(items) => ExtractItems(st, find, items)
    case _ => st
  }

  function ExtractEntries(st: Stats, find: Finder, entries: seq<Entry>): (r: Stats)
    ensures Consistent(st) ==> Consistent(r)
    decreases entries
  {
    if |entries| == 0 then st
    else
      var value := entries[0].value;
      var next :=
        match value
        case JString(s) => if Contains(s, "@") then AddFound(st, find(s)) else st
        case JObject(_) => ExtractFromJson(st, find, value)
        case JArray(_) => ExtractFromJson(st, find, value)
        case _ => st;
      ExtractEntries(next, find, entries[1..])
  }

  function ExtractItems(st: Stats, find: Finder, items: seq<Json>): (r: Stats)
    ensures Consistent(st) ==> Consistent(r)
    decreases items
  {
    if |items| == 0 then st
    else ExtractItems(ExtractFromJson(st, find, items[0]), find, items[1..])
  }

  /** The strings of a document the extractor scans, in document order: the
      string values of objects, at any depth, that contain an `@`. */
  function Scanned(data: Json): (r: seq<string>)
    ensures forall i :: 0 <= i < |r| ==> Contains(r[i], "@")
    decreases data
  {
    match data
    case JObject(entries) => ScannedEntries(entries)
    case JArray(items) => ScannedItems(items)
    case _ => []
  }

  function ScannedEntries(entries: seq<Entry>): (r: seq<string>)
    ensures forall i :: 0 <= i < |r| ==> Contains(r[i], "@")
    decreases entries
  {
    if |entries| == 0 then []
    else
      var value := entries[0].value;
      var here :=
        match value
        case JString(s) => if Contains(s, "@") then [s] else []
        case _ => Scanned(value);
      here + ScannedEntries(entries[1..])
  }

  function ScannedItems(items: seq<Json>): (r: seq<string>)
    ensures forall i :: 0 <= i < |r| ==> Contains(r[i], "@")
    decreases items
  {
    if |items| == 0 then [] else Scanned(items[0]) + ScannedItems(items[1..])
  }

  /** Everything `find` returns over a list of texts, in order. */
  function FindAll(find: Finder, texts: seq<string>): seq<string> {
    if |texts| == 0 then [] else find(texts[0]) + FindAll(find, texts[1..])
  }

  lemma {:induction false} FindAllAppend(find: Finder, a: seq<string>, b: seq<string>)
    ensures FindAll(find, a + b) == FindAll(find, a) + FindAll(find, b)
    decreases |a|
  {
    if |a| == 0 {
      assert a + b == b;
    } else {
      assert (a + b)[1..] == a[1..] + b;
      FindAllAppend(find, a[1..], b);
    }
  }

  /** Adding `find`'s results text by text is adding them all at once. */
  lemma {:induction false} AddFoundAll(st: Stats, find: Finder, a: seq<string>, b: seq<string>)
    ensures AddFound(AddFound(st, FindAll(find, a)), FindAll(find, b)) == AddFound(st, FindAll(find, a + b))
  {
    AddFoundAppend(st, FindAll(find, a), FindAll(find, b));
    FindAllAppend(find, a, b);
  }

  /** Walking a document is finding addresses in exactly its scanned strings,
      in document order. */
  lemma {:induction false} ExtractScansScanned(st: Stats, find: Finder, data: Json)
    ensures ExtractFromJson(st, find, data) == AddFound(st, FindAll(find, Scanned(data)))
    decreases data
  {
    match data
    case JObject(entries) => ExtractEntriesScans(st, find, entries);
    case JArray(items) => ExtractItemsScans(st, find, items);
    case JNull =>
    case JBool(_) =>
    case JNumber(_) =>
    case JString(_) =>
  }

  lemma {:induction false} ExtractEntriesScans(st: Stats, find: Finder, entries: seq<Entry>)
    ensures ExtractEntries(st, find, entries) == AddFound(st, FindAll(find, ScannedEntries(entries)))
    decreases entries
  {
    if |entries| > 0 {
      var value := entries[0].value;
      var here :=
        match value
        case JString(s) => if Contains(s, "@") then [s] else []
        case _ => Scanned(value);
      var next :=
        match value
        case JString(s) => if Contains(s, "@") then AddFound(st, find(s)) else st
        case JObject(_) => ExtractFromJson(st, find, value)
        case JArray(_) => ExtractFromJson(st, find, value)
        case _ => st;
      assert next == AddFound(st, FindAll(find, here)) by {
        match value
        case JString(s) =>
          if Contains(s, "@") {
            assert FindAll(find, [s]) == find(s) + FindAll(find, []);
            assert find(s) + [] == find(s);
          }
        case JObject(_) => ExtractScansScanned(st, find, value);
        case JArray(_) => ExtractScansScanned(st, find, value);
        case JNull =>
        case JBool(_) =>
        case JNumber(_) =>
      }
      ExtractEntriesScans(next, find, entries[1..]);
      AddFoundAll(st, find, here, ScannedEntries(entries[1..]));
    }
  }

  lemma {:induction false} ExtractItemsScans(st: Stats, find: Finder, items: seq<Json>)
    ensures ExtractItems(st, find, items) == AddFound(st, FindAll(find, ScannedItems(items)))
    decreases items
  {
    if |items| > 0 {
      ExtractScansScanned(st, find, items[0]);
      ExtractItemsScans(ExtractFromJson(st, find, items[0]), find, items[1..]);
      AddFoundAll(st, find, Scanned(items[0]), ScannedItems(items[1..]));
    }
  }

  /** An array of strings is never scanned, whatever the strings hold, and
      neither is an object value without an `@`. */
  lemma ArrayStringsIgnored(st: Stats, find: Finder, strings: seq<string>, key: string, plain: string)
    requires !Contains(plain, "@")
    ensures ExtractFromJson(st, find, JArray(seq(|strings|, i requires 0 <= i < |strings| => JString(strings[i])))) == st
    ensures ExtractFromJson(st, find, JObject([Entry(key, JString(plain))])) == st
  {
    var items := seq(|strings|, i requires 0 <= i < |strings| => JString(strings[i]));
    StringItemsIgnored(st, find, items);
    assert ExtractEntries(st, find, [Entry(key, JString(plain))][1..]) == st;
  }

  lemma {:induction false} StringItemsIgnored(st: Stats, find: Finder, items: seq<Json>)
    requires forall i :: 0 <= i < |items| ==> items[i].JString?
    ensures ExtractItems(st, find, items) == st
    decreases items
  {
    if |items| > 0 {
      StringItemsIgnored(st, find, items[1..]);
    }
  }

  /** The decoded text chunks of a non-JSON file, scanned one by one (an
      address split across two chunks is not found). */
  function ScanChunks(st: Stats, find: Finder, chunks: seq<string>): (r: Stats)
    ensures Consistent(st) ==> Consistent(r)
    decreases |chunks|
  {
    if |chunks| == 0 then st else ScanChunks(AddFound(st, find(chunks[0])), find, chunks[1..])
  }

  lemma {:induction false} ScanChunksFindsAll(st: Stats, find: Finder, chunks: seq<string>)
    ensures ScanChunks(st, find, chunks) == AddFound(st, FindAll(find, chunks))
    decreases |chunks|
  {
    if |chunks| > 0 {
      ScanChunksFindsAll(AddFound(st, find(chunks[0])), find, chunks[1..]);
      AddFoundAppend(st, find(chunks[0]), FindAll(find, chunks[1..]));
    }
  }

  /** `process_file_content`. A name ending in `.json` (case-sensitive) is
      parsed and walked; a parse failure is swallowed and changes nothing.
      Anything else is scanned as text. */
  function ProcessFileContent(st: Stats, find: Finder, name: string, parsed: Option<Json>, chunks: seq<string>): (r: Stats)
    ensures Consistent(st) ==> Consistent(r)
    ensures EndsWith(name, ".json") && parsed.None? ==> r == st
    ensures EndsWith(name, ".json") && parsed.Some? ==> r == AddFound(st, FindAll(find, Scanned(parsed.value)))
    ensures !EndsWith(name, ".json") ==> r == AddFound(st, FindAll(find, chunks))
  {
    if EndsWith(name, ".json") then
      match parsed
      case None => st
      case Some(data) =>
        ExtractScansScanned(st, find, data);
        ExtractFromJson(st, find, data)
    else
      ScanChunksFindsAll(st, find, chunks);
      ScanChunks(st, find, chunks)
  }

  const RelevantMarkers: seq<string> := ["mail", "gmail", "mbox", ".eml", ".json"]

  /** Whether an archive member is looked at: its lower-cased name contains
      one of the markers. */
  predicate IsRelevant(name: string) {
    exists i :: 0 <= i < |RelevantMarkers| && Contains(ToLower(name), RelevantMarkers[i])
  }

  /** Relevance ignores case. */
  lemma RelevanceIgnoresCase(name: string)
    ensures IsRelevant(ToLower(name)) <==> IsRelevant(name)
  {
    ToLowerIdempotent(name);
  }

  /** The JSON test does not ignore case: a member named `X.JSON` is looked
      at, but scanned as text. */
  lemma UpperCaseJsonScannedAsText(base: string)
    ensures IsRelevant(base + ".JSON") && !EndsWith(base + ".JSON", ".json")
  {
    UpperCaseJsonRelevant(base);
    var n := base + ".JSON";
    assert n[|n| - 1] == 'N';
  }

  lemma UpperCaseJsonRelevant(base: string)
    ensures IsRelevant(base + ".JSON")
  {
    var lower := ToLower(".JSON");
    assert lower == RelevantMarkers[4] by {
      assert |lower| == 5;
    }
    ToLowerAppend(base, ".JSON");
    assert ToLower(base + ".JSON") == ToLower(base) + lower + "";
    ContainsSplice(ToLower(base), lower, "");
  }

  /** An archive member: its name, whether it is a regular file, the parsed
      document when it parses as JSON, and its decoded text chunks. */
  datatype Member = Member(name: string, isFile: bool, parsed: Option<Json>, chunks: seq<string>)

  /** `process_zip` (every listed name) and `process_tar` (regular files
      only): each relevant member's content is processed in archive order. */
  function ProcessArchive(st: Stats, find: Finder, members: seq<Member>, filesOnly: bool): (r: Stats)
    ensures Consistent(st) ==> Consistent(r)
    decreases |members|
  {
    if |members| == 0 then st
    else
      var m := members[0];
      var next :=
        if (!filesOnly || m.isFile) && IsRelevant(m.name)
        then ProcessFileContent(st, find, m.name, m.parsed, m.chunks)
        else st;
      ProcessArchive(next, find, members[1..], filesOnly)
  }

  /** Members that are not relevant contribute nothing. */
  lemma {:induction false} IrrelevantMembersIgnored(st: Stats, find: Finder, members: seq<Member>, filesOnly: bool)
    requires forall i :: 0 <= i < |members| ==> !IsRelevant(members[i].name)
    ensures ProcessArchive(st, find, members, filesOnly) == st
    decreases |members|
  {
    if |members| > 0 {
      IrrelevantMembersIgnored(st, find, members[1..], filesOnly);
    }
  }

  const ExcludePatterns: seq<string> := [
    "noreply", "no-reply", "donotreply",
    "mailer-daemon", "postmaster", "abuse",
    "notification", "alert", "system",
    "support", "info@", "admin@", "webmaster@",
    "newsletter", "marketing", "sales@",
    "factura", "invoice", "billing"]

  /** The business's own domains. */
  const OwnDomains: seq<string> := ["atacamanightsky", "tudominio.com"]

  predicate ContainsAny(e: string, patterns: seq<string>) {
    exists i :: 0 <= i < |patterns| && Contains(e, patterns[i])
  }

  /** An address that is neither a system address nor the business's own. */
  predicate IsClient(e: string) {
    !ContainsAny(e, ExcludePatterns) && !ContainsAny(e, OwnDomains)
  }

  /** `filter_client_emails`: the addresses seen, without system addresses and
      the business's own, each once, in the set's iteration order. Its test
      of a count of at least one admits every address seen. */
  method FilterClientEmails(st: Stats) returns (clients: seq<string>)
    ensures forall e :: e in clients <==> e in st.all && IsClient(e) && Count(st, e) >= 1
    ensures forall i, j :: 0 <= i < j < |clients| ==> clients[i] != clients[j]
    ensures Consistent(st) ==> forall e :: e in clients <==> e in st.all && IsClient(e)
  {
    clients := [];
    var rest := st.all;
    while rest != {}
      invariant rest <= st.all
      invariant forall e :: e in clients <==> e in st.all - rest && IsClient(e) && Count(st, e) >= 1
      invariant forall i, j :: 0 <= i < j < |clients| ==> clients[i] != clients[j]
      decreases |rest|
    {
      var e :| e in rest;
      rest := rest - {e};
      if !ContainsAny(e, ExcludePatterns) && !ContainsAny(e, OwnDomains) && Count(st, e) >= 1 {
        clients := clients + [e];
      }
    }
  }

  /** Addresses seen at least three times. */
  function Vip(clients: seq<string>, st: Stats): (r: seq<string>)
    ensures forall i :: 0 <= i < |r| ==> Count(st, r[i]) >= 3
  {
    if |clients| == 0 then []
    else (if Count(st, clients[0]) >= 3 then [clients[0]] else []) + Vip(clients[1..], st)
  }

  /** Addresses seen fewer than three times. */
  function Regular(clients: seq<string>, st: Stats): (r: seq<string>)
    ensures forall i :: 0 <= i < |r| ==> Count(st, r[i]) < 3
  {
    if |clients| == 0 then []
    else (if Count(st, clients[0]) < 3 then [clients[0]] else []) + Regular(clients[1..], st)
  }

  lemma VipHead(clients: seq<string>, st: Stats)
    requires |clients| > 0
    ensures multiset(Vip(clients, st))
      == (if Count(st, clients[0]) >= 3 then multiset{clients[0]} else multiset{}) + multiset(Vip(clients[1..], st))
  {
    var h := if Count(st, clients[0]) >= 3 then [clients[0]] else [];
    assert Vip(clients, st) == h + Vip(clients[1..], st);
  }

  lemma RegularHead(clients: seq<string>, st: Stats)
    requires |clients| > 0
    ensures multiset(Regular(clients, st))
      == (if Count(st, clients[0]) < 3 then multiset{clients[0]} else multiset{}) + multiset(Regular(clients[1..], st))
  {
    var h := if Count(st, clients[0]) < 3 then [clients[0]] else [];
    assert Regular(clients, st) == h + Regular(clients[1..], st);
  }

  /** The two segments split the client list: together they hold each
      address exactly as often as the list does. */
  lemma {:induction false} SegmentsPartition(clients: seq<string>, st: Stats)
    ensures multiset(Vip(clients, st)) + multiset(Regular(clients, st)) == multiset(clients)
  {
    if |clients| > 0 {
      SegmentsPartition(clients[1..], st);
      SegmentsStep(clients, st);
    }
  }

  /** The segments of a list split it when those of its tail split the
      tail. */
  lemma SegmentsStep(clients: seq<string>, st: Stats)
    requires |clients| > 0
    requires multiset(Vip(clients[1..], st)) + multiset(Regular(clients[1..], st)) == multiset(clients[1..])
    ensures multiset(Vip(clients, st)) + multiset(Regular(clients, st)) == multiset(clients)
  {
    var h, t := clients[0], clients[1..];
    assert multiset(clients) == multiset{h} + multiset(t) by {
      assert clients == [h] + t;
    }
    VipHead(clients, st);
    RegularHead(clients, st);
    MultisetSplitStep(multiset(Vip(clients, st)), multiset(Regular(clients, st)),
      multiset(Vip(t, st)), multiset(Regular(t, st)), multiset(t), h, Count(st, h) >= 3);
  }

  /** Adding one element to one side of a split adds it to the whole. */
  lemma MultisetSplitStep(a: multiset<string>, b: multiset<string>, a': multiset<string>, b': multiset<string>,
                          t: multiset<string>, h: string, left: bool)
    requires a == (if left then multiset{h} else multiset{}) + a'
    requires b == (if left then multiset{} else multiset{h}) + b'
    requires a' + b' == t
    ensures a + b == multiset{h} + t
  {
  }

  /** The characters `[._-]` that become spaces in a name. */
  predicate IsNameSeparator(c: char) {
    c == '.' || c == '_' || c == '-'
  }

  function SpaceSeparators(s: string): (r: string)
    ensures |r| == |s|
    ensures forall i :: 0 <= i < |s| ==> r[i] == if IsNameSeparator(s[i]) then ' ' else s[i]
  {
    if |s| == 0 then []
    else [if IsNameSeparator(s[0]) then ' ' else s[0]] + SpaceSeparators(s[1..])
  }

  /** How `str.title` treats one character: a letter becomes upper case at
      the start of a word and lower case inside one; anything else stays. */
  function TitleChar(c: char, startsWord: bool): char {
    if IsAsciiLetter(c) then (if startsWord then ToUpperChar(c) else ToLowerChar(c)) else c
  }

  /** `str.title`, scanning with whether the previous character was a
      letter. */
  function TitleFrom(s: string, afterLetter: bool): (r: string)
    ensures |r| == |s|
    ensures |s| > 0 ==> r[0] == TitleChar(s[0], !afterLetter)
    ensures forall i {:trigger r[i]} :: 0 < i < |s| ==> r[i] == TitleChar(s[i], !IsAsciiLetter(s[i - 1]))
  {
    if |s| == 0 then []
    else
      var c := s[0];
      var first := if IsAsciiLetter(c) then (if afterLetter then ToLowerChar(c) else ToUpperChar(c)) else c;
      [first] + TitleFrom(s[1..], IsAsciiLetter(c))
  }

  /** A word starts at the beginning and after every non-letter. */
  function Title(s: string): (r: string)
    ensures |r| == |s|
    ensures forall i {:trigger r[i]} :: 0 <= i < |s| ==> r[i] == TitleChar(s[i], i == 0 || !IsAsciiLetter(s[i - 1]))
  {
    TitleFrom(s, false)
  }

  /** Title-casing turns letters into letters and leaves everything else
      alone. */
  lemma TitleCharKeepsKind(c: char, startsWord: bool)
    ensures IsAsciiLetter(c) ==> IsAsciiLetter(TitleChar(c, startsWord))
    ensures !IsAsciiLetter(c) ==> TitleChar(c, startsWord) == c
    ensures !IsNameSeparator(c) ==> !IsNameSeparator(TitleChar(c, startsWord))
    ensures c != '@' ==> TitleChar(c, startsWord) != '@'
  {
  }

  /** One character of the guessed name: never an `@` or a separator, and
      a space where the address had a dot. */
  lemma NameCharAt(local: string, i: nat)
    requires i < |local|
    requires forall j :: 0 <= j < |local| ==> local[j] != '@'
    ensures var r := Title(SpaceSeparators(local));
      r[i] != '@' && !IsNameSeparator(r[i]) && (local[i] == '.' ==> r[i] == ' ')
  {
    var spaced := SpaceSeparators(local);
    var w := i == 0 || !IsAsciiLetter(spaced[i - 1]);
    assert Title(spaced)[i] == TitleChar(spaced[i], w);
    NameChar(local[i], w);
  }

  /** The character-level view of `NameCharAt`. */
  lemma NameChar(x: char, startsWord: bool)
    requires x != '@'
    ensures var t := TitleChar(if IsNameSeparator(x) then ' ' else x, startsWord);
      t != '@' && !IsNameSeparator(t) && (x == '.' ==> t == ' ')
  {
    var c := if IsNameSeparator(x) then ' ' else x;
    assert !IsNameSeparator(c) && c != '@';
    TitleCharKeepsKind(c, startsWord);
  }

  /** The name guessed from an address: the part before the first `@`, with
      `.`, `_` and `-` read as spaces, title-cased. Character by character: a
      separator becomes a space, any other non-letter stays, and a letter is
      upper case where a word starts (at the beginning or after a non-letter)
      and lower case inside a word. */
  function EstimateName(email: string): (r: string)
    ensures |r| == |BeforeFirst(email, '@')| && |r| <= |email|
    ensures forall i :: 0 <= i < |r| ==> r[i] != '@' && !IsNameSeparator(r[i])
    ensures forall i :: 0 <= i < |r| ==>
      r[i] == (if IsNameSeparator(email[i]) then ' '
               else if !IsAsciiLetter(email[i]) then email[i]
               else if i == 0 || !IsAsciiLetter(email[i - 1]) then ToUpperChar(email[i])
               else ToLowerChar(email[i]))
  {
    var local := BeforeFirst(email, '@');
    var spaced := SpaceSeparators(local);
    var r := Title(spaced);
    forall i | 0 <= i < |r|
      ensures r[i] != '@' && !IsNameSeparator(r[i])
      ensures r[i] == (if IsNameSeparator(email[i]) then ' '
                       else if !IsAsciiLetter(email[i]) then email[i]
                       else if i == 0 || !IsAsciiLetter(email[i - 1]) then ToUpperChar(email[i])
                       else ToLowerChar(email[i]))
    {
      NameCharAt(local, i);
      TitledAt(email, local, spaced, r, i);
    }
    r
  }

  /** One position of the guessed name, read against the address. */
  lemma TitledAt(email: string, local: string, spaced: string, r: string, i: nat)
    requires local == BeforeFirst(email, '@') && spaced == SpaceSeparators(local) && r == Title(spaced)
    requires i < |r|
    ensures i < |email|
    ensures r[i] == (if IsNameSeparator(email[i]) then ' '
                     else if !IsAsciiLetter(email[i]) then email[i]
                     else if i == 0 || !IsAsciiLetter(email[i - 1]) then ToUpperChar(email[i])
                     else ToLowerChar(email[i]))
  {
    assert local[i] == email[i];
    if i > 0 {
      assert local[i - 1] == email[i - 1];
      assert IsAsciiLetter(spaced[i - 1]) == IsAsciiLetter(email[i - 1]);
    }
  }

  /** Guessing a name from a guessed name changes nothing: the result has
      no `@` and no separator, and title-casing is already settled. */
  lemma EstimateNameIdempotent(email: string)
    ensures EstimateName(EstimateName(email)) == EstimateName(email)
  {
    var n := EstimateName(email);
    var m := EstimateName(n);
    assert BeforeFirst(n, '@') == n;
    forall i | 0 <= i < |n|
      ensures m[i] == n[i]
    {
      SettledAt(email, n, m, i);
    }
  }

  /** One position of the idempotence: a guessed name keeps the letter/
      non-letter pattern of the address, so re-casing repeats the casing. */
  lemma SettledAt(email: string, n: string, m: string, i: nat)
    requires n == EstimateName(email) && m == EstimateName(n)
    requires |m| == |n| && i < |n|
    ensures m[i] == n[i]
  {
    assert IsAsciiLetter(n[i]) == IsAsciiLetter(email[i]);
    if i > 0 {
      assert IsAsciiLetter(n[i - 1]) == IsAsciiLetter(email[i - 1]);
    }
  }
}
