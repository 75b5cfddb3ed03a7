/** The conversation page: which match it shows and whether that match is online,
    whose side each message sits on, the shared-track player, the day-of-month
    suffix under each message, the calendar links made from dates in a message,
    and how a message's attachments are grouped for display. */
module ChatPage {
  import opened Wrappers
  import opened Strings
  import opened Js
  import opened NamedItems
  import AuthStore
  import SocketClient
  import MessageStore

  // ---------------------------------------------------------------------------
  // The match shown.

  /** `v.toString()` for the id values the page meets; `None` where it is not
      modelled (arrays and non-integral numbers). */
  function IdText(v: Json): Option<string> {
    match v
    case JStr(s) => Some(s)
    case JNum(x) => if x == x.Floor as real then Some(IntToString(x.Floor)) else None
    case JBool(b) => Some(if b then "true" else "false")
    case JObj(_) => Some("[object Object]")
    case _ => None
  }

  /** `m?._id?.toString()`: undefined when `m` or its `_id` is null or missing. */
  function MatchIdText(m: Json): (r: Option<string>)
    ensures r.Some? ==> m.JObj? && Lookup(m.fields, "_id").Some?
  {
    if !m.JObj? then None
    else
      match Lookup(m.fields, "_id")
      case None => None
      case Some(JNull) => None
      case Some(v) => IdText(v)
  }

  /** `matches.find((m) => m?._id?.toString() === id)`. */
  function FindMatch(matches: seq<Json>, id: string): (r: Option<Json>)
    ensures r.Some? ==> r.value in matches && MatchIdText(r.value) == Some(id) && r.value.JObj?
    ensures r.None? ==> forall m :: m in matches ==> MatchIdText(m) != Some(id)
    ensures r.Some? ==> exists i :: 0 <= i < |matches| && matches[i] == r.value
                                    && forall j :: 0 <= j < i ==> MatchIdText(matches[j]) != Some(id)
  {
    if matches == [] then None
    else if MatchIdText(matches[0]) == Some(id) then Some(matches[0])
    else
      var r := FindMatch(matches[1..], id);
      assert forall m :: m in matches ==> m == matches[0] || m in matches[1..] by {
        assert matches == [matches[0]] + matches[1..];
      }
      assert r.Some? ==> exists i :: 0 <= i < |matches| && matches[i] == r.value
                                     && forall j :: 0 <= j < i ==> MatchIdText(matches[j]) != Some(id) by {
        if r.Some? {
          var i :| 0 <= i < |matches[1..]| && matches[1..][i] == r.value
                   && forall j :: 0 <= j < i ==> MatchIdText(matches[1..][j]) != Some(id);
          assert matches[i + 1] == r.value;
          forall j | 0 <= j < i + 1 ensures MatchIdText(matches[j]) != Some(id) {
            if j > 0 {
              assert matches[j] == matches[1..][j - 1];
            }
          }
        }
      }
      r
  }

  /** `onlineUsers.includes(v)`. */
  predicate Includes(online: seq<Json>, v: Option<Json>) {
    exists i :: 0 <= i < |online| && StrictEquals(Some(online[i]), v)
  }

  /** `isOnline`: the match exists and its id is among the online users, or it is a bot. */
  function IsOnline(matches: seq<Json>, id: string, online: seq<Json>): (r: bool)
    ensures r <==> FindMatch(matches, id).Some?
                   && var m := FindMatch(matches, id).value;
                      Includes(online, Lookup(m.fields, "_id")) || IsTruthy(Lookup(m.fields, "isBot"))
  {
    match FindMatch(matches, id)
    case None => false
    case Some(m) => Includes(online, Lookup(m.fields, "_id")) || IsTruthy(Lookup(m.fields, "isBot"))
  }

  function IsTruthy(v: Option<Json>): bool {
    v.Some? && Truthy(v.value)
  }

  /** When the shown match's id arrives in a `userOnline` event, the match shows online. */
  lemma MatchComesOnline(matches: seq<Json>, id: string, online: seq<Json>, mid: Json)
    requires FindMatch(matches, id).Some? && Lookup(FindMatch(matches, id).value.fields, "_id") == Some(mid)
    requires !mid.JArr? && !mid.JObj?
    ensures IsOnline(matches, id, online + [mid])
  {
    var o := online + [mid];
    assert StrictEquals(Some(o[|online|]), Some(mid));
  }

  /** When it leaves in a `userOffline` event, a match that is not a bot shows offline. */
  lemma MatchGoesOffline(matches: seq<Json>, id: string, online: seq<Json>, mid: Json)
    requires FindMatch(matches, id).Some? && Lookup(FindMatch(matches, id).value.fields, "_id") == Some(mid)
    requires !IsTruthy(Lookup(FindMatch(matches, id).value.fields, "isBot"))
    ensures !IsOnline(matches, id, AuthStore.WithoutUser(online, mid))
  {
    var o := AuthStore.WithoutUser(online, mid);
    forall i | 0 <= i < |o| ensures !StrictEquals(Some(o[i]), Some(mid)) {
      assert o[i] in o;
    }
  }

  // ---------------------------------------------------------------------------
  // Whose message it is.

  function IsNullish(v: Option<Json>): bool {
    v.None? || v.value.JNull?
  }

  /** `a == b` for the values ids take. Strings and numbers are compared through the
      number a digit string denotes, booleans through 0 and 1; other coercions are not
      modelled and compare unequal. */
  function LooseEquals(a: Option<Json>, b: Option<Json>): bool {
    if IsNullish(a) || IsNullish(b) then IsNullish(a) && IsNullish(b)
    else
      match (a.value, b.value)
      case (JBool(x), JBool(y)) => x == y
      case (JNum(x), JNum(y)) => x == y
      case (JStr(x), JStr(y)) => x == y
      case (JNum(x), JStr(s)) => s != "" && AllDigits(s) && x == DigitsValue(s) as real
      case (JStr(s), JNum(x)) => s != "" && AllDigits(s) && x == DigitsValue(s) as real
      case (JBool(p), JNum(x)) => x == (if p then 1.0 else 0.0)
      case (JNum(x), JBool(p)) => x == (if p then 1.0 else 0.0)
      case _ => false
  }

  /** Loose equality is symmetric and holds wherever strict equality does. */
  lemma LooseEqualsProperties(a: Option<Json>, b: Option<Json>)
    ensures LooseEquals(a, b) == LooseEquals(b, a)
    ensures StrictEquals(a, b) ==> LooseEquals(a, b)
  {
  }

  /** `msg.senderId || msg.sender?._id || msg.sender`. */
  function SenderOf(msg: seq<Field>): Option<Json> {
    var senderId := Lookup(msg, "senderId");
    if IsTruthy(senderId) then senderId
    else
      var sender := Lookup(msg, "sender");
      var nested := if IsNullish(sender) then None else Member(sender, "_id").value;
      if IsTruthy(nested) then nested else sender
  }

  /** `isMe`: the message's sender loosely equals the signed-in user's `_id`. */
  function IsMe(msg: seq<Field>, authUserId: Option<Json>): (r: bool)
    ensures IsTruthy(Lookup(msg, "senderId")) ==> (r <==> LooseEquals(Lookup(msg, "senderId"), authUserId))
  {
    LooseEquals(SenderOf(msg), authUserId)
  }

  /** The message shown optimistically when the user sends one sits on the user's side. */
  lemma OwnOptimisticMessageIsMine(now: int, uid: int, receiverId: Option<Json>, content: Option<Json>,
                                   attachments: Option<Json>, previewUrls: Option<Json>, isoNow: string)
    requires uid != 0
    ensures var m := MessageStore.Optimistic(now, Some(JNum(uid as real)), receiverId, content, attachments, previewUrls, isoNow);
            IsMe(m.fields, Some(JNum(uid as real)))
  {
    var m := MessageStore.Optimistic(now, Some(JNum(uid as real)), receiverId, content, attachments, previewUrls, isoNow);
    assert !HasKey(m.fields, "senderId") by {
      assert Keys(m.fields) == ["_id", "sender", "receiver", "content", "attachments", "linkPreviews", "createdAt"];
      forall i | 0 <= i < |m.fields| ensures m.fields[i].key != "senderId" {
        assert m.fields[i].key == Keys(m.fields)[i];
      }
    }
    assert m.fields[1] == Field("sender", JNum(uid as real));
    LookupFirst(m.fields, 1);
  }

  /** A message whose `senderId` is another user's numeric id sits on the other side. */
  lemma OthersMessageIsNotMine(msg: seq<Field>, sender: int, uid: int)
    requires sender != 0 && sender != uid
    requires Lookup(msg, "senderId") == Some(JNum(sender as real))
    ensures !IsMe(msg, Some(JNum(uid as real)))
  {
  }

  // ---------------------------------------------------------------------------
  // Day-of-month suffix.

  const SUFFIXES: seq<string> := ["th", "st", "nd", "rd"]

  /** `s[k]`, undefined outside the array. */
  function Suffix(k: int): Option<string> {
    if 0 <= k < |SUFFIXES| then Some(SUFFIXES[k]) else None
  }

  /** `getOrdinal(n)`: `s[(v - 20) % 10] || s[v] || s[0]` with `v = n % 100`. */
  function Ordinal(n: int): string {
    var v := Rem(n, 100);
    match Suffix(Rem(v - 20, 10))
    case Some(s) => s
    case None =>
      match Suffix(v)
      case Some(s) => s
      case None => SUFFIXES[0]
  }

  /** The English rule: "th" for 11 to 13 past a hundred, otherwise by the last digit. */
  function EnglishOrdinal(n: nat): string {
    if 11 <= n % 100 <= 13 then "th"
    else if n % 10 == 1 then "st"
    else if n % 10 == 2 then "nd"
    else if n % 10 == 3 then "rd"
    else "th"
  }

  lemma LastDigitOfLastTwo(n: nat)
    ensures (n % 100) % 10 == n % 10
  {
    var q, r := n / 100, n % 100;
    assert n == 100 * q + r;
    var s, t := r / 10, r % 10;
    assert r == 10 * s + t;
    ModTenOf(n, 10 * q + s, t);
  }

  lemma ModTenOf(n: int, k: int, t: int)
    requires n == 10 * k + t && 0 <= t < 10
    ensures n % 10 == t
  {
  }

  /** The table lookup gives the English suffix for every non-negative number. */
  lemma OrdinalIsEnglish(n: nat)
    ensures Ordinal(n) == EnglishOrdinal(n)
  {
    var v := n % 100;
    LastDigitOfLastTwo(n);
    assert Rem(n, 100) == v;
    if v >= 20 {
      assert Rem(v - 20, 10) == (v - 20) % 10 == v % 10;
    } else if v == 10 || v == 0 {
      assert Rem(v - 20, 10) == 0;
    } else {
      assert -10 < Rem(v - 20, 10) < 0;
    }
  }

  /** For the days of a month: "st" on 1, 21 and 31, "nd" on 2 and 22, "rd" on 3 and 23,
      "th" on every other day, 11 to 13 included. */
  lemma DaySuffixes(day: int)
    requires 1 <= day <= 31
    ensures Ordinal(day) == "st" <==> day == 1 || day == 21 || day == 31
    ensures Ordinal(day) == "nd" <==> day == 2 || day == 22
    ensures Ordinal(day) == "rd" <==> day == 3 || day == 23
    ensures Ordinal(day) == "th" <==> !(day in {1, 21, 31, 2, 22, 3, 23})
  {
    OrdinalIsEnglish(day);
  }

  // ---------------------------------------------------------------------------
  // Dates in a message become calendar links.

  const CALENDAR_PREFIX := "https://calendar.google.com/calendar/r/eventedit?dates="

  /** What the date pattern captures: one or two digits for month and day, two to
      four for the year. */
  predicate DateMatch(m: string, d: string, y: string) {
    AllDigits(m) && AllDigits(d) && AllDigits(y)
    && 1 <= |m| <= 2 && 1 <= |d| <= 2 && 2 <= |y| <= 4
  }

  /** `s.padStart(2, "0")`. */
  function Pad2(s: string): (r: string)
    ensures |s| >= 2 ==> r == s
    ensures |s| < 2 ==> |r| == 2 && r[2 - |s|..] == s && forall i :: 0 <= i < 2 - |s| ==> r[i] == '0'
  {
    if |s| >= 2 then s else if |s| == 1 then "0" + s else "00"
  }

  /** A two-digit year is read as 20yy. */
  function FullYear(y: string): string {
    if |y| == 2 then "20" + y else y
  }

  /** `${year}-${mm}-${dd}T09:00`. */
  function StartDate(m: string, d: string, y: string): string {
    FullYear(y) + "-" + Pad2(m) + "-" + Pad2(d) + "T09:00"
  }

  /** `s.replace(/-/g, "")`. */
  function WithoutDashes(s: string): (r: string)
    ensures '-' !in r
  {
    if s == [] then []
    else (if s[0] == '-' then "" else [s[0]]) + WithoutDashes(s[1..])
  }

  lemma {:induction false} WithoutDashesAppend(a: string, b: string)
    ensures WithoutDashes(a + b) == WithoutDashes(a) + WithoutDashes(b)
  {
    if a == [] {
      assert a + b == b;
    } else {
      assert (a + b)[0] == a[0];
      assert (a + b)[1..] == a[1..] + b;
      WithoutDashesAppend(a[1..], b);
    }
  }

  lemma {:induction false} WithoutDashesKeeps(s: string)
    requires '-' !in s
    ensures WithoutDashes(s) == s
  {
    if s != [] {
      assert s[0] != '-';
      assert '-' !in s[1..];
      WithoutDashesKeeps(s[1..]);
    }
  }

  /** The calendar URL: the same instant as start and end of the event. */
  function CalendarUrl(m: string, d: string, y: string): string {
    var c := WithoutDashes(StartDate(m, d, y));
    CALENDAR_PREFIX + c + "/" + c
  }

  /** The replacement for one matched date: a link whose text is the date as written. */
  function DateLink(m: string, d: string, y: string): (r: string)
    requires DateMatch(m, d, y)
    ensures Contains(r, m + "/" + d + "/" + y)
  {
    var text := m + "/" + d + "/" + y;
    var r := "<a href=\"" + CalendarUrl(m, d, y) + "\" target=\"_blank\" class=\"underline text-[#1DB954]\">" + text + "</a>";
    ContainsMiddle("<a href=\"" + CalendarUrl(m, d, y) + "\" target=\"_blank\" class=\"underline text-[#1DB954]\">", text, "</a>");
    r
  }

  /** Padding a one- or two-digit number keeps its value. */
  lemma Pad2Value(s: string)
    requires AllDigits(s) && 1 <= |s| <= 2
    ensures |Pad2(s)| == 2 && AllDigits(Pad2(s)) && DigitsValue(Pad2(s)) == DigitsValue(s)
  {
    if |s| == 1 {
      var p := Pad2(s);
      assert p == ['0', s[0]];
      assert p[..1] == "0";
      assert DigitsValue("0") == 0;
      assert s[..0] == "";
    }
  }

  /** Dropping a dash between two pieces joins them. */
  lemma WithoutDashAround(a: string, b: string)
    ensures WithoutDashes(a + "-" + b) == WithoutDashes(a) + WithoutDashes(b)
  {
    var dash: string := "-";
    assert dash[1..] == [];
    assert WithoutDashes(dash) == [] + WithoutDashes([]);
    WithoutDashesAppend(a + dash, b);
    WithoutDashesAppend(a, dash);
  }

  /** The compact date is the four-digit year (a two-digit one prefixed with "20"),
      the month and the day padded to two digits, and 9 a.m.; padding keeps each
      number's value. */
  lemma CompactDate(m: string, d: string, y: string)
    requires DateMatch(m, d, y)
    ensures WithoutDashes(StartDate(m, d, y)) == FullYear(y) + Pad2(m) + Pad2(d) + "T09:00"
    ensures |y| == 2 ==> FullYear(y) == "20" + y
    ensures |Pad2(m)| == 2 && AllDigits(Pad2(m)) && DigitsValue(Pad2(m)) == DigitsValue(m)
    ensures |Pad2(d)| == 2 && AllDigits(Pad2(d)) && DigitsValue(Pad2(d)) == DigitsValue(d)
  {
    Pad2Value(m);
    Pad2Value(d);
    assert StartDate(m, d, y) == FullYear(y) + "-" + Pad2(m) + "-" + Pad2(d) + "T09:00";
    CompactDateText(FullYear(y), Pad2(m), Pad2(d), "T09:00");
  }

  /** Removing the dashes of `yy-mm-dd` and a dash-free tail leaves the pieces side
      by side. */
  lemma CompactDateText(yy: string, pm: string, pd: string, time: string)
    requires '-' !in yy && '-' !in pm && '-' !in pd && '-' !in time
    ensures WithoutDashes(yy + "-" + pm + "-" + pd + time) == yy + pm + pd + time
  {
    var dash: string := "-";
    assert WithoutDashes(dash) == [] by {
      assert dash[1..] == [];
    }
    var x1 := yy + dash;
    assert WithoutDashes(x1) == yy by {
      WithoutDashesAppend(yy, dash);
      WithoutDashesKeeps(yy);
    }
    var x2 := x1 + pm;
    assert WithoutDashes(x2) == yy + pm by {
      WithoutDashesAppend(x1, pm);
      WithoutDashesKeeps(pm);
    }
    var x3 := x2 + dash;
    assert WithoutDashes(x3) == yy + pm by {
      WithoutDashesAppend(x2, dash);
    }
    var x4 := x3 + pd;
    assert WithoutDashes(x4) == yy + pm + pd by {
      WithoutDashesAppend(x3, pd);
      WithoutDashesKeeps(pd);
    }
    assert WithoutDashes(x4 + time) == yy + pm + pd + time by {
      WithoutDashesAppend(x4, time);
      WithoutDashesKeeps(time);
    }
  }

  /** The `dates` parameter names one instant twice: split on "/" it gives the same
      compact date as start and end. */
  lemma CalendarRangeIsOneInstant(m: string, d: string, y: string)
    requires DateMatch(m, d, y)
    ensures var c := WithoutDashes(StartDate(m, d, y));
            CalendarUrl(m, d, y) == CALENDAR_PREFIX + c + "/" + c
            && Split(c + "/" + c, '/') == [c, c]
  {
    var c := WithoutDashes(StartDate(m, d, y));
    CompactDate(m, d, y);
    assert '/' !in c by {
      assert c == FullYear(y) + Pad2(m) + Pad2(d) + "T09:00";
    }
    assert Join([c, c], '/') == c + "/" + c by {
      assert [c, c][1..] == [c];
    }
    SplitJoin([c, c], '/');
  }

  // ---------------------------------------------------------------------------
  // Attachments of a message.

  /** `{...att}` for the values an attachment can be: an object's own fields, the
      indexed elements of an array or the characters of a string, nothing otherwise. */
  function SpreadFields(att: Json): seq<Field> {
    match att
    case JObj(fs) => fs
    case JArr(items) => seq(|items|, i requires 0 <= i < |items| => Field(NatToString(i), items[i]))
    case JStr(s) => seq(|s|, i requires 0 <= i < |s| => Field(NatToString(i), JStr([s[i]])))
    case _ => []
  }

  /** `att.category?.toLowerCase() || "other"`; reading a null attachment's category,
      or lower-casing a category that is not a string, throws. */
  function NormalizedCategory(att: Json): (r: Result<string>)
    ensures r.Err? <==> att.JNull? || (att.JObj? && Lookup(att.fields, "category").Some?
                                       && !Lookup(att.fields, "category").value.JNull?
                                       && !Lookup(att.fields, "category").value.JStr?)
    ensures r.Ok? ==> r.value != "" && Lower(r.value) == r.value
  {
    if att.JNull? then Err("TypeError")
    else
      match Member(Some(att), "category").value
      case None => Ok("other")
      case Some(JNull) => Ok("other")
      case Some(JStr(s)) =>
        LowerIdempotent(s);
        if Lower(s) == "" then Ok("other") else Ok(Lower(s))
      case Some(_) => Err("TypeError")
  }

  /** `{...att, category: ...}`. */
  function NormalizeAttachment(att: Json): (r: Result<Json>)
    ensures r.Err? <==> NormalizedCategory(att).Err?
    ensures r.Ok? ==> r.value.JObj? && Lookup(r.value.fields, "category") == Some(JStr(NormalizedCategory(att).value))
  {
    var cat :- NormalizedCategory(att);
    Ok(JObj(SocketClient.SetField(SpreadFields(att), "category", JStr(cat))))
  }

  /** Normalising changes the category and nothing else of an attachment object. */
  lemma NormalizeKeepsOtherFields(fs: seq<Field>, k: string)
    requires NormalizeAttachment(JObj(fs)).Ok? && k != "category"
    ensures Lookup(NormalizeAttachment(JObj(fs)).value.fields, k) == Lookup(fs, k)
  {
    var cat := NormalizedCategory(JObj(fs)).value;
    assert SpreadFields(JObj(fs)) == fs;
    assert NormalizeAttachment(JObj(fs)).value.fields == SocketClient.SetField(fs, "category", JStr(cat));
    SocketClient.SetFieldKeepsOthers(fs, "category", JStr(cat), k);
  }

  /** The backend's upper-case category names end up as the lower-case ones the page
      groups by; a missing category becomes "other". */
  lemma NormalizeCategoryCases(fs: seq<Field>)
    ensures Lookup(fs, "category") == Some(JStr("AUDIO")) ==> NormalizedCategory(JObj(fs)) == Ok("audio")
    ensures Lookup(fs, "category").None? ==> NormalizedCategory(JObj(fs)) == Ok("other")
  {
    if Lookup(fs, "category") == Some(JStr("AUDIO")) {
      assert Lower("AUDIO") == "audio";
    }
  }

  /** `msg.attachments.map(...)`: every attachment normalised, or the first failure. */
  function NormalizeAll(atts: seq<Json>): (r: Result<seq<Json>>)
    ensures r.Ok? <==> forall i :: 0 <= i < |atts| ==> NormalizeAttachment(atts[i]).Ok?
    ensures r.Ok? ==> |r.value| == |atts| && forall i :: 0 <= i < |atts| ==> r.value[i] == NormalizeAttachment(atts[i]).value
  {
    if forall i :: 0 <= i < |atts| ==> NormalizeAttachment(atts[i]).Ok? then
      Ok(seq(|atts|, i requires 0 <= i < |atts| => NormalizeAttachment(atts[i]).value))
    else Err("TypeError")
  }

  /** `a.category === "audio"`. */
  predicate IsAudio(a: Json) {
    a.JObj? && StrictEquals(Lookup(a.fields, "category"), Some(JStr("audio")))
  }

  /** The attachments on one side of the audio test, in their order. */
  function Group(s: seq<Json>, audio: bool): (r: seq<Json>)
    ensures forall x :: x in r <==> x in s && IsAudio(x) == audio
    ensures |r| <= |s|
  {
    if s == [] then []
    else
      assert forall x :: x in s <==> x == s[0] || x in s[1..] by {
        assert s == [s[0]] + s[1..];
      }
      if IsAudio(s[0]) == audio then [s[0]] + Group(s[1..], audio) else Group(s[1..], audio)
  }

  /** The audio players and the grid together show every attachment exactly once. */
  lemma {:induction false} GroupsPartition(s: seq<Json>)
    ensures multiset(Group(s, true)) + multiset(Group(s, false)) == multiset(s)
    ensures |Group(s, true)| + |Group(s, false)| == |s|
  {
    if s != [] {
      GroupsPartition(s[1..]);
      assert s == [s[0]] + s[1..];
    }
  }

  /** Grouping goes item by item, so each group keeps the attachments' order. */
  lemma {:induction false} GroupAppend(a: seq<Json>, b: seq<Json>, audio: bool)
    ensures Group(a + b, audio) == Group(a, audio) + Group(b, audio)
  {
    if a == [] {
      assert a + b == b;
    } else {
      assert (a + b)[0] == a[0];
      assert (a + b)[1..] == a[1..] + b;
      GroupAppend(a[1..], b, audio);
    }
  }

  // ---------------------------------------------------------------------------
  // Page state.

  /** `(i + 1) % n`. */
  function NextIndex(i: nat, n: nat): (r: nat)
    requires n > 0
    ensures r < n
    ensures i < n ==> r == if i + 1 == n then 0 else i + 1
  {
    Rem(i + 1, n)
  }

  /** `(i - 1 + n) % n`. */
  function PrevIndex(i: nat, n: nat): (r: nat)
    requires n > 0
    ensures r < n
    ensures i < n ==> r == if i == 0 then n - 1 else i - 1
  {
    Rem(i - 1 + n, n)
  }

  /** Stepping back undoes stepping forward, and the other way round. */
  lemma StepsUndo(i: nat, n: nat)
    requires i < n
    ensures PrevIndex(NextIndex(i, n), n) == i
    ensures NextIndex(PrevIndex(i, n), n) == i
  {
  }

  class View {
    var trackIndex: nat
    var trackDirection: int
    var viewAttachment: Option<Json>

    constructor ()
      ensures trackIndex == 0 && trackDirection == 1 && viewAttachment == None
    {
      trackIndex := 0;
      trackDirection := 1;
      viewAttachment := None;
    }

    /** `handleNextTrack`, offered only while there are shared tracks. */
    method NextTrack(tracks: nat)
      requires tracks > 0
      modifies this
      ensures trackIndex == NextIndex(old(trackIndex), tracks) && trackIndex < tracks
      ensures trackDirection == 1 && viewAttachment == old(viewAttachment)
    {
      trackDirection := 1;
      trackIndex := NextIndex(trackIndex, tracks);
    }

    /** `handlePrevTrack`. */
    method PrevTrack(tracks: nat)
      requires tracks > 0
      modifies this
      ensures trackIndex == PrevIndex(old(trackIndex), tracks) && trackIndex < tracks
      ensures trackDirection == -1 && viewAttachment == old(viewAttachment)
    {
      trackDirection := -1;
      trackIndex := PrevIndex(trackIndex, tracks);
    }

    /** `handleViewAttachmentClick`. */
    method ViewAttachment(attachment: Json)
      modifies this
      ensures viewAttachment == Some(attachment)
      ensures trackIndex == old(trackIndex) && trackDirection == old(trackDirection)
    {
      viewAttachment := Some(attachment);
    }

    /** `handleCloseModal`. */
    method CloseModal()
      modifies this
      ensures viewAttachment == None
      ensures trackIndex == old(trackIndex) && trackDirection == old(trackDirection)
    {
      viewAttachment := None;
    }
  }

  /** The shared tracks the player steps through: `filterBad(match?.commonTracks)`. */
  function Tracks(m: Option<Json>): (r: Result<seq<Json>>)
    ensures m.None? || m == Some(JNull) ==> r == Ok([])
    ensures m.Some? && m.value.JObj? ==> r == FilterBad(Lookup(m.value.fields, "commonTracks"))
    ensures r.Ok? && m.Some? && m.value.JObj? ==> forall t :: t in r.value ==> Named(t)
  {
    match m
    case None => FilterBad(None)
    case Some(v) => if v.JNull? then FilterBad(None) else FilterBad(Member(Some(v), "commonTracks").value)
  }
}
