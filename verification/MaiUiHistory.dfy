/** Chat histories of screenshots and actions: building, trimming and converting them. */
module MaiUiHistory {

  type Image = nat

  datatype Item = Placeholder | Url(image: Image) | OtherItem(text: string)

  datatype Content = Text(s: string) | Items(items: seq<Item>) | Absent

  datatype Role = User | Assistant | OtherRole(name: string)

  datatype Message = Message(role: Role, content: Content)

  datatype Error = ScreenshotCount | ChatImageMismatch | NotEnoughImages | UnusedImages

  datatype Result<T> = Ok(value: T) | Err(error: Error)

  // ----- which messages carry a screenshot -----

  /** `sub in s`, tried from position `i` on. */
  predicate HasSubstring(s: string, sub: string, i: nat)
    decreases |s| - i
  {
    i + |sub| <= |s| && (s[i..i + |sub|] == sub || (i < |s| && HasSubstring(s, sub, i + 1)))
  }

  /** One of the first `n` items is an image of either kind. */
  predicate HasImageItem(items: seq<Item>, n: nat)
    requires n <= |items|
  {
    n > 0 && (items[n - 1].Placeholder? || items[n - 1].Url? || HasImageItem(items, n - 1))
  }

  predicate IsImageMessage(m: Message) {
    m.role.User? &&
    match m.content
    case Text(s) => HasSubstring(s, "<image>", 0)
    case Items(items) => HasImageItem(items, |items|)
    case Absent => false
  }

  /** Image messages among the first `n`. */
  function ImagesUpTo(ms: seq<Message>, n: nat): (c: nat)
    requires n <= |ms|
    ensures c <= n
  {
    if n == 0 then 0 else ImagesUpTo(ms, n - 1) + (if IsImageMessage(ms[n - 1]) then 1 else 0)
  }

  predicate ImageFree(ms: seq<Message>) { forall i {:trigger IsImageMessage(ms[i])} :: 0 <= i < |ms| ==> !IsImageMessage(ms[i]) }

  lemma {:induction false} CountedImage(ms: seq<Message>, n: nat, i: nat)
    requires i < n <= |ms| && IsImageMessage(ms[i])
    ensures ImagesUpTo(ms, n) > 0
  {
    if i < n - 1 { CountedImage(ms, n - 1, i); }
  }

  lemma {:induction false} NoneCounted(ms: seq<Message>, n: nat)
    requires n <= |ms| && ImageFree(ms)
    ensures ImagesUpTo(ms, n) == 0
  {
    if n > 0 { NoneCounted(ms, n - 1); }
  }

  lemma ImageFreeIffNoneCounted(ms: seq<Message>)
    ensures ImagesUpTo(ms, |ms|) == 0 <==> ImageFree(ms)
  {
    if ImageFree(ms) {
      NoneCounted(ms, |ms|);
    } else {
      var i :| 0 <= i < |ms| && IsImageMessage(ms[i]);
      CountedImage(ms, |ms|, i);
    }
  }

  // ----- trimming -----

  /** The positions of the image messages among the first `n`. */
  function ImageIndices(ms: seq<Message>, n: nat): (r: seq<nat>)
    requires n <= |ms|
    ensures |r| == ImagesUpTo(ms, n)
  {
    if n == 0 then []
    else if IsImageMessage(ms[n - 1]) then ImageIndices(ms, n - 1) + [n - 1]
    else ImageIndices(ms, n - 1)
  }

  /** The first `n` messages without those at the removed positions. */
  function Without(ms: seq<Message>, removed: set<nat>, n: nat): seq<Message>
    requires n <= |ms|
  {
    if n == 0 then []
    else if n - 1 in removed then Without(ms, removed, n - 1)
    else Without(ms, removed, n - 1) + [ms[n - 1]]
  }

  function FirstOf(s: seq<nat>, k: nat): set<nat>
    requires k <= |s|
  {
    set i | 0 <= i < k :: s[i]
  }

  datatype Trimmed = Trimmed(messages: seq<Message>, images: seq<Image>)

  /** Every action stays; only the newest `h` screenshots do. */
  function LimitImageHistory(ms: seq<Message>, images: seq<Image>, h: int): Result<Trimmed> {
    var indices := ImageIndices(ms, |ms|);
    if |indices| != |images| then Err(ChatImageMismatch)
    else if h <= 0 || |images| <= h then Ok(Trimmed(ms, images))
    else
      var remove := |images| - h;
      Ok(Trimmed(Without(ms, FirstOf(indices, remove), |ms|), images[remove..]))
  }

  /** The first `n` messages without the `k` oldest image messages. */
  function DropOldest(ms: seq<Message>, k: nat, n: nat): seq<Message>
    requires n <= |ms|
  {
    if n == 0 then []
    else if IsImageMessage(ms[n - 1]) && ImagesUpTo(ms, n - 1) < k then DropOldest(ms, k, n - 1)
    else DropOldest(ms, k, n - 1) + [ms[n - 1]]
  }

  lemma {:induction false} IndexOfImage(ms: seq<Message>, n: nat, p: nat)
    requires n <= |ms| && p < ImagesUpTo(ms, n)
    ensures var j := ImageIndices(ms, n)[p]; j < n && IsImageMessage(ms[j]) && ImagesUpTo(ms, j) == p
  {
    if p < ImagesUpTo(ms, n - 1) { IndexOfImage(ms, n - 1, p); }
  }

  lemma {:induction false} ImageHasIndex(ms: seq<Message>, n: nat, j: nat)
    requires j < n <= |ms| && IsImageMessage(ms[j])
    ensures ImagesUpTo(ms, j) < ImagesUpTo(ms, n) && ImageIndices(ms, n)[ImagesUpTo(ms, j)] == j
  {
    if j < n - 1 { ImageHasIndex(ms, n - 1, j); }
  }

  lemma OldestByIndex(ms: seq<Message>, k: nat, j: nat)
    requires k <= ImagesUpTo(ms, |ms|) && j < |ms|
    ensures j in FirstOf(ImageIndices(ms, |ms|), k) <==> IsImageMessage(ms[j]) && ImagesUpTo(ms, j) < k
  {
    if j in FirstOf(ImageIndices(ms, |ms|), k) {
      var p :| 0 <= p < k && ImageIndices(ms, |ms|)[p] == j;
      IndexOfImage(ms, |ms|, p);
    }
    if IsImageMessage(ms[j]) { ImageHasIndex(ms, |ms|, j); }
  }

  lemma {:induction false} WithoutIsDropOldest(ms: seq<Message>, k: nat, n: nat)
    requires k <= ImagesUpTo(ms, |ms|) && n <= |ms|
    ensures Without(ms, FirstOf(ImageIndices(ms, |ms|), k), n) == DropOldest(ms, k, n)
  {
    if n > 0 {
      WithoutIsDropOldest(ms, k, n - 1);
      OldestByIndex(ms, k, n - 1);
    }
  }

  /** The messages that are not screenshots. */
  function Actions(ms: seq<Message>, n: nat): seq<Message>
    requires n <= |ms|
  {
    if n == 0 then []
    else if IsImageMessage(ms[n - 1]) then Actions(ms, n - 1)
    else Actions(ms, n - 1) + [ms[n - 1]]
  }

  lemma {:induction false} DropSnoc(ms: seq<Message>, m: Message, k: nat, n: nat)
    requires n <= |ms|
    ensures DropOldest(ms + [m], k, n) == DropOldest(ms, k, n) && ImagesUpTo(ms + [m], n) == ImagesUpTo(ms, n)
    ensures Actions(ms + [m], n) == Actions(ms, n)
  {
    if n > 0 { DropSnoc(ms, m, k, n - 1); }
  }

  /** A message added at the end is dropped when it is an image message among the `k` oldest. */
  lemma AddedMessage(ms: seq<Message>, m: Message, k: nat)
    ensures ImagesUpTo(ms + [m], |ms| + 1) == ImagesUpTo(ms, |ms|) + (if IsImageMessage(m) then 1 else 0)
    ensures var d := DropOldest(ms, k, |ms|);
      DropOldest(ms + [m], k, |ms| + 1) == if IsImageMessage(m) && ImagesUpTo(ms, |ms|) < k then d else d + [m]
    ensures var a := Actions(ms, |ms|);
      Actions(ms + [m], |ms| + 1) == if IsImageMessage(m) then a else a + [m]
  {
    DropSnoc(ms, m, k, |ms|);
  }

  lemma DroppingKeepsActions(ms: seq<Message>, k: nat, n: nat)
    requires n <= |ms|
    ensures var r := DropOldest(ms, k, n); Actions(r, |r|) == Actions(ms, n)
  {
    var r := DroppedSoFar(ms, k, n);
  }

  /** What is left keeps the actions, and the images beyond the `k` oldest. */
  lemma {:induction false} DroppedSoFar(ms: seq<Message>, k: nat, n: nat) returns (r: seq<Message>)
    requires n <= |ms|
    ensures r == DropOldest(ms, k, n) && Actions(r, |r|) == Actions(ms, n)
    ensures ImagesUpTo(r, |r|) == if ImagesUpTo(ms, n) <= k then 0 else ImagesUpTo(ms, n) - k
  {
    r := [];
    if n > 0 {
      r := DroppedSoFar(ms, k, n - 1);
      AddedMessage(r, ms[n - 1], k);
      r := if IsImageMessage(ms[n - 1]) && ImagesUpTo(ms, n - 1) < k then r else r + [ms[n - 1]];
    }
  }

  /** Trimming keeps every action, and as many screenshots as images. */
  lemma TrimmingKeepsActions(ms: seq<Message>, images: seq<Image>, h: int)
    requires LimitImageHistory(ms, images, h).Ok?
    ensures var t := LimitImageHistory(ms, images, h).value;
      && Actions(t.messages, |t.messages|) == Actions(ms, |ms|)
      && ImagesUpTo(t.messages, |t.messages|) == |t.images|
      && |t.images| == (if h <= 0 || |images| <= h then |images| else h)
      && t.images == images[|images| - |t.images|..]
  {
    if h > 0 && |images| > h {
      WithoutIsDropOldest(ms, |images| - h, |ms|);
      DroppingKeepsActions(ms, |images| - h, |ms|);
      DroppingCounts(ms, |images| - h, |ms|);
    }
  }

  lemma DroppingCounts(ms: seq<Message>, k: nat, n: nat)
    requires n <= |ms|
    ensures var r := DropOldest(ms, k, n);
      ImagesUpTo(r, |r|) == if ImagesUpTo(ms, n) <= k then 0 else ImagesUpTo(ms, n) - k
  {
    var r := DroppedSoFar(ms, k, n);
  }

  // ----- building -----

  const SCREENSHOT := Message(User, Items([Placeholder]))

  function Reply(text: string): Message { Message(Assistant, Text(text)) }

  /** Turn `i`: a screenshot from `first` on, and the response if there is one. */
  function Shown(ms: seq<Message>, first: nat, i: nat): seq<Message> { if i >= first then ms + [SCREENSHOT] else ms }

  function Answered(ms: seq<Message>, responses: seq<string>, i: nat): seq<Message> {
    if i < |responses| then ms + [Reply(responses[i])] else ms
  }

  function Turn(ms: seq<Message>, first: nat, responses: seq<string>, i: nat): seq<Message> {
    Answered(Shown(ms, first, i), responses, i)
  }

  /** The prefix and the first `n` turns. */
  function Chat(prefix: seq<Message>, first: nat, responses: seq<string>, n: nat): seq<Message> {
    if n == 0 then prefix else Turn(Chat(prefix, first, responses, n - 1), first, responses, n - 1)
  }

  function Retained(count: nat, h: int): nat { if h <= 0 || count <= h then count else h }

  datatype History = History(messages: seq<Message>, first: nat)

  function Built(prefix: seq<Message>, count: nat, responses: seq<string>, h: int): History {
    var first := count - Retained(count, h);
    History(Chat(prefix, first, responses, count), first)
  }

  method BuildMessageHistory(prefix: seq<Message>, count: nat, responses: seq<string>, h: int) returns (r: Result<History>)
    ensures r == if count == |responses| + 1 then Ok(Built(prefix, count, responses, h)) else Err(ScreenshotCount)
  {
    if count != |responses| + 1 { return Err(ScreenshotCount); }
    var retained := if h <= 0 then count else if count <= h then count else h;
    var first := count - retained;
    var messages := prefix;
    for index := 0 to count
      invariant messages == Chat(prefix, first, responses, index)
    {
      if index >= first { messages := messages + [SCREENSHOT]; }
      if index < |responses| { messages := messages + [Reply(responses[index])]; }
    }
    r := Ok(History(messages, first));
  }

  // ----- a built history by position -----

  /** After `n` turns: the responses before the first screenshot, then screenshots and responses alternating. */
  predicate InPlace(ms: seq<Message>, prefix: seq<Message>, first: nat, responses: seq<string>, n: nat) {
    && |ms| == |prefix| + (if n <= first then n else 2 * n - first) - (if n > |responses| then n - |responses| else 0)
    && prefix <= ms
    && (forall i {:trigger responses[i]} :: 0 <= i < n && i < first && i < |responses| ==>
          |prefix| + i < |ms| && ms[|prefix| + i] == Message(Assistant, Text(responses[i])))
    && (forall j {:trigger ScreenshotAt(ms, PairPlace(|prefix| + first, j))} :: 0 <= j < n - first ==>
          ScreenshotAt(ms, PairPlace(|prefix| + first, j)))
    && (forall i {:trigger responses[i]} :: first <= i < n && i < |responses| ==>
          ResponseAt(ms, PairPlace(|prefix| + first, i - first) + 1, responses[i]))
  }

  /** Where the `j`-th screenshot stands, when they alternate with responses from `start` on. */
  function PairPlace(start: nat, j: nat): nat { start + 2 * j }

  predicate ScreenshotAt(ms: seq<Message>, p: nat) { p < |ms| && ms[p] == Message(User, Items([Placeholder])) }

  predicate ResponseAt(ms: seq<Message>, p: nat, text: string) { p < |ms| && ms[p] == Message(Assistant, Text(text)) }

  lemma TurnInPlace(before: seq<Message>, prefix: seq<Message>, first: nat, responses: seq<string>, i: nat)
    requires InPlace(before, prefix, first, responses, i) && first <= |responses| && i <= |responses|
    ensures InPlace(Turn(before, first, responses, i), prefix, first, responses, i + 1)
  {
    var ms := Turn(before, first, responses, i);
    assert before <= ms;
    forall j {:trigger PairPlace(|prefix| + first, j)} | 0 <= j < i + 1 - first
      ensures ScreenshotAt(ms, PairPlace(|prefix| + first, j)) {
      if j < i - first { assert ScreenshotAt(before, PairPlace(|prefix| + first, j)); }
    }
    forall k | first <= k < i + 1 && k < |responses|
      ensures ResponseAt(ms, PairPlace(|prefix| + first, k - first) + 1, responses[k])
    {
      if k < i { assert ResponseAt(before, PairPlace(|prefix| + first, k - first) + 1, responses[k]); }
    }
  }

  lemma {:induction false} ChatInPlace(prefix: seq<Message>, first: nat, responses: seq<string>, n: nat) returns (ms: seq<Message>)
    requires first <= |responses| && n <= |responses| + 1
    ensures ms == Chat(prefix, first, responses, n) && InPlace(ms, prefix, first, responses, n)
  {
    if n == 0 {
      ms := prefix;
    } else {
      var before := ChatInPlace(prefix, first, responses, n - 1);
      TurnInPlace(before, prefix, first, responses, n - 1);
      ms := Turn(before, first, responses, n - 1);
    }
  }

  /**
   * A built history with first retained screenshot `f`: the prefix, the `f` responses whose screenshots are gone, then
   * each retained screenshot followed by the response to it, and the last screenshot, which has none yet, at the end.
   */
  lemma BuiltByPosition(prefix: seq<Message>, count: nat, responses: seq<string>, h: int)
    requires count == |responses| + 1
    ensures var (ms, f) := (Built(prefix, count, responses, h).messages, Built(prefix, count, responses, h).first);
      && f == (if 0 < h < count then count - h else 0)
      && |ms| == |prefix| + 2 * count - 1 - f && ms[..|prefix|] == prefix
      && (forall i {:trigger responses[i]} :: 0 <= i < f ==> ms[|prefix| + i] == Message(Assistant, Text(responses[i])))
      && (forall j {:trigger ScreenshotAt(ms, PairPlace(|prefix| + f, j))} :: 0 <= j < count - f ==>
            ScreenshotAt(ms, PairPlace(|prefix| + f, j)))
      && (forall i {:trigger responses[i]} :: f <= i < |responses| ==>
            ResponseAt(ms, PairPlace(|prefix| + f, i - f) + 1, responses[i]))
      && ScreenshotAt(ms, |ms| - 1)
  {
    var f := Built(prefix, count, responses, h).first;
    var ms := ChatInPlace(prefix, f, responses, count);
    assert ScreenshotAt(ms, PairPlace(|prefix| + f, count - 1 - f));
  }

  // ----- trimming a built history -----

  lemma ScreenshotsAreImages(text: string)
    ensures IsImageMessage(SCREENSHOT) && !IsImageMessage(Reply(text))
  {
    assert HasImageItem([Placeholder], 1);
  }

  lemma {:induction false} PrefixUntouched(prefix: seq<Message>, k: nat, n: nat)
    requires n <= |prefix| && ImageFree(prefix)
    ensures DropOldest(prefix, k, n) == prefix[..n] && ImagesUpTo(prefix, n) == 0
  {
    if n > 0 { PrefixUntouched(prefix, k, n - 1); }
  }

  lemma CountInChat(prefix: seq<Message>, first: nat, responses: seq<string>, n: nat)
    ensures var ms := Chat(prefix, first, responses, n);
      ImagesUpTo(ms, |ms|) == ImagesUpTo(prefix, |prefix|) + (if n <= first then 0 else n - first)
  {
    var ms := CountTurns(prefix, first, responses, n);
  }

  lemma {:induction false} CountTurns(prefix: seq<Message>, first: nat, responses: seq<string>, n: nat) returns (ms: seq<Message>)
    ensures ms == Chat(prefix, first, responses, n)
    ensures ImagesUpTo(ms, |ms|) == ImagesUpTo(prefix, |prefix|) + (if n <= first then 0 else n - first)
  {
    if n == 0 {
      ms := prefix;
    } else {
      var before := CountTurns(prefix, first, responses, n - 1);
      TurnCounts(before, first, responses, n - 1);
      ms := Turn(before, first, responses, n - 1);
    }
  }

  lemma TurnCounts(ms: seq<Message>, first: nat, responses: seq<string>, i: nat)
    ensures var r := Turn(ms, first, responses, i); ImagesUpTo(r, |r|) == ImagesUpTo(ms, |ms|) + (if i >= first then 1 else 0)
  {
    ShownCounts(ms, first, i, 0);
    AnsweredCounts(Shown(ms, first, i), responses, i, 0);
  }

  lemma ShownCounts(ms: seq<Message>, first: nat, i: nat, k: nat)
    ensures var r := Shown(ms, first, i);
      && ImagesUpTo(r, |r|) == ImagesUpTo(ms, |ms|) + (if i >= first then 1 else 0)
      && Actions(r, |r|) == Actions(ms, |ms|)
      && DropOldest(r, k, |r|)
         == if i >= first && ImagesUpTo(ms, |ms|) >= k then DropOldest(ms, k, |ms|) + [SCREENSHOT] else DropOldest(ms, k, |ms|)
  {
    ScreenshotsAreImages("");
    if i >= first { AddedMessage(ms, SCREENSHOT, k); }
  }

  lemma AnsweredCounts(ms: seq<Message>, responses: seq<string>, i: nat, k: nat)
    ensures var r := Answered(ms, responses, i);
      && ImagesUpTo(r, |r|) == ImagesUpTo(ms, |ms|)
      && Actions(r, |r|) == Answered(Actions(ms, |ms|), responses, i)
      && DropOldest(r, k, |r|) == Answered(DropOldest(ms, k, |ms|), responses, i)
  {
    if i < |responses| {
      ScreenshotsAreImages(responses[i]);
      AddedMessage(ms, Reply(responses[i]), k);
    }
  }

  lemma DropShown(ms: seq<Message>, first: nat, i: nat, k: nat)
    requires ImagesUpTo(ms, |ms|) == if i <= first then 0 else i - first
    ensures var r := Shown(ms, first, i); DropOldest(r, k, |r|) == Shown(DropOldest(ms, k, |ms|), first + k, i)
  {
    ShownCounts(ms, first, i, k);
  }

  lemma DropTurn(ms: seq<Message>, first: nat, responses: seq<string>, i: nat, k: nat, dropped: seq<Message>)
    requires ImagesUpTo(ms, |ms|) == (if i <= first then 0 else i - first) && dropped == DropOldest(ms, k, |ms|)
    ensures var r := Turn(ms, first, responses, i); DropOldest(r, k, |r|) == Turn(dropped, first + k, responses, i)
  {
    DropShown(ms, first, i, k);
    AnsweredCounts(Shown(ms, first, i), responses, i, k);
  }

  lemma ActionsTurn(ms: seq<Message>, first: nat, responses: seq<string>, i: nat, actions: seq<Message>)
    requires actions == Actions(ms, |ms|)
    ensures var r := Turn(ms, first, responses, i); Actions(r, |r|) == Answered(actions, responses, i)
  {
    ShownCounts(ms, first, i, 0);
    AnsweredCounts(Shown(ms, first, i), responses, i, 0);
  }

  lemma CountInFreeChat(prefix: seq<Message>, first: nat, responses: seq<string>, n: nat)
    requires ImageFree(prefix)
    ensures var ms := Chat(prefix, first, responses, n); ImagesUpTo(ms, |ms|) == if n <= first then 0 else n - first
  {
    CountInChat(prefix, first, responses, n);
    ImageFreeIffNoneCounted(prefix);
  }

  /** Dropping the `k` oldest screenshots of a built chat is starting the screenshots `k` turns later. */
  lemma DropFromChat(prefix: seq<Message>, first: nat, responses: seq<string>, n: nat, k: nat)
    requires ImageFree(prefix)
    ensures var ms := Chat(prefix, first, responses, n);
      DropOldest(ms, k, |ms|) == Chat(prefix, first + k, responses, n)
  {
    NoTurns(prefix, k);
    DropTurns(Chats(prefix, first, responses, n), Chats(prefix, first + k, responses, n), first, responses, n, k);
  }

  /** A chat and the same chat with its screenshots starting `k` turns later. */
  predicate Shortened(ms: seq<Message>, dropped: seq<Message>, first: nat, n: nat, k: nat) {
    dropped == DropOldest(ms, k, |ms|) && ImagesUpTo(ms, |ms|) == if n <= first then 0 else n - first
  }

  predicate IsTurn(before: seq<Message>, after: seq<Message>, first: nat, responses: seq<string>, i: nat) {
    after == Turn(before, first, responses, i)
  }

  /** Chats that grow turn by turn. */
  predicate Growing(chats: seq<seq<Message>>, first: nat, responses: seq<string>) {
    forall i {:trigger IsTurn(chats[i], chats[i + 1], first, responses, i)} :: 0 <= i < |chats| - 1 ==>
      IsTurn(chats[i], chats[i + 1], first, responses, i)
  }

  lemma {:induction false} DropTurns(chats: seq<seq<Message>>, dropped: seq<seq<Message>>, first: nat, responses: seq<string>, n: nat, k: nat)
    requires n < |chats| == |dropped| && Growing(chats, first, responses) && Growing(dropped, first + k, responses)
    requires Shortened(chats[0], dropped[0], first, 0, k)
    ensures Shortened(chats[n], dropped[n], first, n, k)
  {
    if n > 0 {
      var i := n - 1;
      DropTurns(chats, dropped, first, responses, i, k);
      assert IsTurn(chats[i], chats[i + 1], first, responses, i) && IsTurn(dropped[i], dropped[i + 1], first + k, responses, i);
      OneMoreTurn(chats[i], first, responses, i, k, dropped[i]);
    }
  }

  function Chats(prefix: seq<Message>, first: nat, responses: seq<string>, n: nat): (r: seq<seq<Message>>)
    ensures |r| == n + 1 && r[0] == prefix && r[n] == Chat(prefix, first, responses, n) && Growing(r, first, responses)
  {
    seq(n + 1, i requires 0 <= i <= n => Chat(prefix, first, responses, i))
  }

  lemma NoTurns(prefix: seq<Message>, k: nat)
    requires ImageFree(prefix)
    ensures DropOldest(prefix, k, |prefix|) == prefix && ImagesUpTo(prefix, |prefix|) == 0
  {
    PrefixUntouched(prefix, k, |prefix|);
    ImageFreeIffNoneCounted(prefix);
  }

  lemma OneMoreTurn(ms: seq<Message>, first: nat, responses: seq<string>, i: nat, k: nat, dropped: seq<Message>)
    requires Shortened(ms, dropped, first, i, k)
    ensures Shortened(Turn(ms, first, responses, i), Turn(dropped, first + k, responses, i), first, i + 1, k)
  {
    TurnCounts(ms, first, responses, i);
    DropTurn(ms, first, responses, i, k, dropped);
  }

  /** The tighter of two limits, none being no limit. */
  function Tighter(a: int, b: int): int {
    if a <= 0 then b else if b <= 0 || a <= b then a else b
  }

  /**
   * Trimming a built history succeeds exactly when the prefix has no image, and then gives the history built with the
   * tighter limit, in messages and in screenshots.
   */
  lemma TrimBuiltIff(prefix: seq<Message>, shots: seq<Image>, responses: seq<string>, h1: int, h2: int)
    requires |shots| == |responses| + 1
    ensures var b := Built(prefix, |shots|, responses, h1);
      var t := LimitImageHistory(b.messages, shots[b.first..], h2);
      var d := Built(prefix, |shots|, responses, Tighter(h1, h2));
      && (t.Ok? <==> ImageFree(prefix))
      && (t.Ok? ==> t.value.messages == d.messages && t.value.images == shots[d.first..])
  {
    TrimSucceedsIff(prefix, shots, responses, h1, h2);
    if ImageFree(prefix) { TrimIsTighter(prefix, shots, responses, h1, h2); }
  }

  lemma TrimSucceedsIff(prefix: seq<Message>, shots: seq<Image>, responses: seq<string>, h1: int, h2: int)
    requires |shots| == |responses| + 1
    ensures var b := Built(prefix, |shots|, responses, h1);
      LimitImageHistory(b.messages, shots[b.first..], h2).Ok? <==> ImageFree(prefix)
  {
    CountInChat(prefix, Built(prefix, |shots|, responses, h1).first, responses, |shots|);
    ImageFreeIffNoneCounted(prefix);
  }

  lemma TrimIsTighter(prefix: seq<Message>, shots: seq<Image>, responses: seq<string>, h1: int, h2: int)
    requires |shots| == |responses| + 1 && ImageFree(prefix)
    ensures var b := Built(prefix, |shots|, responses, h1);
      var d := Built(prefix, |shots|, responses, Tighter(h1, h2));
      LimitImageHistory(b.messages, shots[b.first..], h2) == Ok(Trimmed(d.messages, shots[d.first..]))
  {
    var b := Built(prefix, |shots|, responses, h1);
    var kept := |shots| - b.first;
    if h2 > 0 && kept > h2 {
      TrimChat(prefix, shots, responses, b.first, kept - h2);
    } else {
      CountInFreeChat(prefix, b.first, responses, |shots|);
    }
  }

  lemma TrimChat(prefix: seq<Message>, shots: seq<Image>, responses: seq<string>, first: nat, remove: nat)
    requires ImageFree(prefix) && |shots| == |responses| + 1 && first + remove <= |shots|
    ensures var ms := Chat(prefix, first, responses, |shots|);
      && ImagesUpTo(ms, |ms|) == |shots| - first
      && Without(ms, FirstOf(ImageIndices(ms, |ms|), remove), |ms|) == Chat(prefix, first + remove, responses, |shots|)
    ensures shots[first..][remove..] == shots[first + remove..]
  {
    var ms := Chat(prefix, first, responses, |shots|);
    CountInFreeChat(prefix, first, responses, |shots|);
    WithoutIsDropOldest(ms, remove, |ms|);
    DropFromChat(prefix, first, responses, |shots|, remove);
  }

  /** The first `n` responses behind the prefix. */
  function Spoken(prefix: seq<Message>, responses: seq<string>, n: nat): seq<Message> {
    if n == 0 then prefix else Answered(Spoken(prefix, responses, n - 1), responses, n - 1)
  }

  /** Every action survives building, in order, however few screenshots do. */
  lemma {:induction false} BuildingKeepsActions(prefix: seq<Message>, first: nat, responses: seq<string>, n: nat)
    requires ImageFree(prefix)
    ensures var ms := Chat(prefix, first, responses, n); Actions(ms, |ms|) == Spoken(prefix, responses, n)
  {
    if n == 0 {
      PrefixIsActions(prefix, |prefix|);
    } else {
      BuildingKeepsActions(prefix, first, responses, n - 1);
      var ms := Chat(prefix, first, responses, n - 1);
      ActionsTurn(ms, first, responses, n - 1, Actions(ms, |ms|));
    }
  }

  lemma {:induction false} PrefixIsActions(prefix: seq<Message>, n: nat)
    requires n <= |prefix| && ImageFree(prefix)
    ensures Actions(prefix, n) == prefix[..n]
  {
    if n > 0 { PrefixIsActions(prefix, n - 1); }
  }

  // ----- conversion for the model server -----

  /** Placeholders among the first `n` items. */
  function PlaceholdersUpTo(items: seq<Item>, n: nat): nat
    requires n <= |items|
  {
    if n == 0 then 0 else PlaceholdersUpTo(items, n - 1) + (if items[n - 1].Placeholder? then 1 else 0)
  }

  function PlaceholdersIn(m: Message): nat {
    if m.content.Items? then PlaceholdersUpTo(m.content.items, |m.content.items|) else 0
  }

  /** Placeholders in the first `n` messages. */
  function TotalUpTo(ms: seq<Message>, n: nat): nat
    requires n <= |ms|
  {
    if n == 0 then 0 else TotalUpTo(ms, n - 1) + PlaceholdersIn(ms[n - 1])
  }

  lemma {:induction false} PlaceholdersGrow(items: seq<Item>, i: nat, n: nat)
    requires i < n <= |items|
    ensures PlaceholdersUpTo(items, i) + (if items[i].Placeholder? then 1 else 0) <= PlaceholdersUpTo(items, n)
  {
    if i < n - 1 { PlaceholdersGrow(items, i, n - 1); }
  }

  lemma {:induction false} TotalGrows(ms: seq<Message>, j: nat, n: nat)
    requires j < n <= |ms|
    ensures TotalUpTo(ms, j) + PlaceholdersIn(ms[j]) <= TotalUpTo(ms, n)
  {
    if j < n - 1 { TotalGrows(ms, j, n - 1); }
  }

  /** Item `i` after conversion: a placeholder becomes the image whose number is that of the placeholder. */
  predicate FilledItem(items: seq<Item>, images: seq<Image>, start: nat, i: nat, r: Item)
    requires i < |items|
  {
    if items[i].Placeholder? then
      start + PlaceholdersUpTo(items, i) < |images| && r == Url(images[start + PlaceholdersUpTo(items, i)])
    else r == items[i]
  }

  predicate FilledItems(items: seq<Item>, images: seq<Image>, start: nat, r: seq<Item>, n: nat)
    requires n <= |items|
  {
    |r| == n && forall i {:trigger FilledItem(items, images, start, i, r[i])} :: 0 <= i < n ==> FilledItem(items, images, start, i, r[i])
  }

  /** A message after conversion, `start` images having been used before it. */
  predicate FilledMessage(m: Message, images: seq<Image>, start: nat, r: Message) {
    if m.content.Items? then
      r.role == m.role && r.content.Items? && FilledItems(m.content.items, images, start, r.content.items, |m.content.items|)
    else r == m
  }

  predicate FilledMessages(ms: seq<Message>, images: seq<Image>, r: seq<Message>, n: nat)
    requires n <= |ms|
  {
    |r| == n
    && forall j {:trigger FilledMessage(ms[j], images, TotalUpTo(ms, j), r[j])} :: 0 <= j < n ==>
         FilledMessage(ms[j], images, TotalUpTo(ms, j), r[j])
  }

  method FillMessage(m: Message, images: seq<Image>, start: nat) returns (r: Result<Message>, next: nat)
    ensures r.Ok? <==> PlaceholdersIn(m) == 0 || start + PlaceholdersIn(m) <= |images|
    ensures r.Err? ==> r.error == NotEnoughImages
    ensures r.Ok? ==> FilledMessage(m, images, start, r.value) && next == start + PlaceholdersIn(m)
  {
    next := start;
    if !m.content.Items? { return Ok(m), next; }
    var items, out: seq<Item> := m.content.items, [];
    for i := 0 to |items|
      invariant next == start + PlaceholdersUpTo(items, i) && (next <= |images| || next == start)
      invariant FilledItems(items, images, start, out, i)
    {
      PlaceholdersGrow(items, i, |items|);
      if items[i].Placeholder? {
        if next >= |images| { return Err(NotEnoughImages), next; }
        assert FilledItem(items, images, start, i, Url(images[next]));
        out := out + [Url(images[next])];
        next := next + 1;
      } else {
        assert FilledItem(items, images, start, i, items[i]);
        out := out + [items[i]];
      }
    }
    r := Ok(Message(m.role, Items(out)));
  }

  /** Conversion succeeds exactly when placeholders and images are as many; placeholder number `p` becomes image `p`. */
  method ToOpenAiMessages(ms: seq<Message>, images: seq<Image>) returns (r: Result<seq<Message>>)
    ensures r.Ok? <==> TotalUpTo(ms, |ms|) == |images|
    ensures r.Err? ==> r.error == if TotalUpTo(ms, |ms|) > |images| then NotEnoughImages else UnusedImages
    ensures r.Ok? ==> FilledMessages(ms, images, r.value, |ms|)
  {
    var next, out: seq<Message> := 0, [];
    for j := 0 to |ms|
      invariant next == TotalUpTo(ms, j) && next <= |images| && FilledMessages(ms, images, out, j)
    {
      TotalGrows(ms, j, |ms|);
      var filled;
      filled, next := FillMessage(ms[j], images, next);
      if filled.Err? { return Err(filled.error); }
      out := out + [filled.value];
    }
    if next != |images| { return Err(UnusedImages); }
    r := Ok(out);
  }

  /** The images that conversion put in, in message and item order. */
  function PutInItems(items: seq<Item>, r: seq<Item>, n: nat): seq<Image>
    requires n <= |items| && n <= |r|
  {
    if n == 0 then []
    else PutInItems(items, r, n - 1) + (if items[n - 1].Placeholder? && r[n - 1].Url? then [r[n - 1].image] else [])
  }

  function PutIn(ms: seq<Message>, r: seq<Message>, n: nat): seq<Image>
    requires n <= |ms| && n <= |r|
  {
    if n == 0 then []
    else PutIn(ms, r, n - 1) + PutInMessage(ms[n - 1], r[n - 1])
  }

  function PutInMessage(m: Message, r: Message): seq<Image> {
    if m.content.Items? && r.content.Items? && |r.content.items| == |m.content.items|
    then PutInItems(m.content.items, r.content.items, |m.content.items|) else []
  }

  lemma MessageUsesImages(m: Message, images: seq<Image>, start: nat, r: Message)
    requires FilledMessage(m, images, start, r) && start + PlaceholdersIn(m) <= |images|
    ensures PutInMessage(m, r) == images[start..start + PlaceholdersIn(m)]
  {
    if m.content.Items? {
      ItemsUseImagesInOrder(m.content.items, images, start, r.content.items, |m.content.items|);
    }
  }

  lemma {:induction false} ItemsUseImagesInOrder(items: seq<Item>, images: seq<Image>, start: nat, r: seq<Item>, n: nat)
    requires n <= |items| && FilledItems(items, images, start, r, |items|)
    ensures PlaceholdersUpTo(items, n) > 0 ==> start + PlaceholdersUpTo(items, n) <= |images|
    ensures PlaceholdersUpTo(items, n) == 0 ==> PutInItems(items, r, n) == []
    ensures PlaceholdersUpTo(items, n) > 0 ==> PutInItems(items, r, n) == images[start..start + PlaceholdersUpTo(items, n)]
  {
    if n > 0 {
      ItemsUseImagesInOrder(items, images, start, r, n - 1);
      assert FilledItem(items, images, start, n - 1, r[n - 1]);
    }
  }

  /** Every image is used, once, in order. */
  lemma ImagesUsedInOrder(ms: seq<Message>, images: seq<Image>, r: seq<Message>, n: nat)
    requires n <= |ms| && TotalUpTo(ms, n) <= |images| && FilledMessages(ms, images, r, |ms|)
    ensures PutIn(ms, r, n) == images[..TotalUpTo(ms, n)]
  {
    var used := UsedSoFar(ms, images, r, n);
  }

  lemma {:induction false} UsedSoFar(ms: seq<Message>, images: seq<Image>, r: seq<Message>, n: nat) returns (used: nat)
    requires n <= |ms| == |r| && TotalUpTo(ms, n) <= |images| && FilledMessages(ms, images, r, |ms|)
    ensures used == TotalUpTo(ms, n) && PutIn(ms, r, n) == images[..used]
  {
    used := 0;
    if n > 0 {
      used := UsedSoFar(ms, images, r, n - 1);
      assert FilledMessage(ms[n - 1], images, TotalUpTo(ms, n - 1), r[n - 1]);
      used := OneMoreUsed(ms, images, r, n, used);
    }
  }

  lemma OneMoreUsed(ms: seq<Message>, images: seq<Image>, r: seq<Message>, n: nat, before: nat) returns (used: nat)
    requires 0 < n <= |ms| == |r| && before == TotalUpTo(ms, n - 1) && TotalUpTo(ms, n) <= |images|
    requires FilledMessage(ms[n - 1], images, before, r[n - 1]) && PutIn(ms, r, n - 1) == images[..before]
    ensures used == TotalUpTo(ms, n) && PutIn(ms, r, n) == images[..used]
  {
    used := before + PlaceholdersIn(ms[n - 1]);
    MessageUsesImages(ms[n - 1], images, before, r[n - 1]);
    assert images[..before] + images[before..used] == images[..used];
  }

  // ----- a built history converts -----

  lemma {:induction false} TotalSnoc(ms: seq<Message>, m: Message, n: nat)
    requires n <= |ms|
    ensures TotalUpTo(ms + [m], n) == TotalUpTo(ms, n)
  {
    if n > 0 { TotalSnoc(ms, m, n - 1); }
  }

  lemma ScreenshotHoldsOne(text: string)
    ensures PlaceholdersIn(SCREENSHOT) == 1 && PlaceholdersIn(Reply(text)) == 0
  {
    assert PlaceholdersUpTo([Placeholder], 0) == 0;
  }

  lemma TurnAddsPlaceholders(ms: seq<Message>, first: nat, responses: seq<string>, i: nat)
    ensures var r := Turn(ms, first, responses, i); TotalUpTo(r, |r|) == TotalUpTo(ms, |ms|) + (if i >= first then 1 else 0)
  {
    ScreenshotHoldsOne(if i < |responses| then responses[i] else "");
    var shown := Shown(ms, first, i);
    TotalSnoc(ms, SCREENSHOT, |ms|);
    if i < |responses| { TotalSnoc(shown, Reply(responses[i]), |shown|); }
  }

  lemma {:induction false} PlaceholdersInChat(prefix: seq<Message>, first: nat, responses: seq<string>, n: nat)
    ensures var ms := Chat(prefix, first, responses, n);
      TotalUpTo(ms, |ms|) == TotalUpTo(prefix, |prefix|) + (if n <= first then 0 else n - first)
  {
    if n > 0 {
      PlaceholdersInChat(prefix, first, responses, n - 1);
      TurnAddsPlaceholders(Chat(prefix, first, responses, n - 1), first, responses, n - 1);
    }
  }

  /** A built history has a placeholder for each retained screenshot, so it converts exactly when the prefix has none. */
  lemma BuiltConvertsIff(prefix: seq<Message>, shots: seq<Image>, responses: seq<string>, h: int)
    requires |shots| == |responses| + 1
    ensures var b := Built(prefix, |shots|, responses, h);
      TotalUpTo(b.messages, |b.messages|) == |shots[b.first..]| <==> TotalUpTo(prefix, |prefix|) == 0
  {
    PlaceholdersInChat(prefix, Built(prefix, |shots|, responses, h).first, responses, |shots|);
  }
}
