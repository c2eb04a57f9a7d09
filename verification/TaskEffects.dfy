/** The labeling tasks on the plain columns: when each raises, and exactly what it writes. */
module TaskEffects {
  import opened Options
  import opened SocialModel
  import opened Tasks
  import opened PostCreation
  import opened RequestEffects

  // ----- Validate and publish

  /** The post exists, has a text unless it is a repost, and its parent and its quoted or reposted post are live. */
  ghost predicate Publishable(t: Tables, p: PostId) {
    && p in t.posts
    && (t.posts[p].repostOf.None? ==> exists i :: 0 <= i < |t.posts[p].body| && !IsSpace(t.posts[p].body[i]))
    && (forall q :: t.posts[p].parent == Some(q) ==> PublishedAndThere(t, q))
    && (forall q :: t.posts[p].quoteOf == Some(q) ==> PublishedAndThere(t, q))
    && (forall q :: t.posts[p].quoteOf.None? && t.posts[p].repostOf == Some(q) ==> PublishedAndThere(t, q))
  }

  lemma ValidateRaises(t: Tables, p: PostId)
    ensures var r := Exec(t, Validate, p);
      && (r.Success? <==> Publishable(t, p)) && (r.Success? ==> r.value == t)
  {
    if p in t.posts {
      var post := t.posts[p];
      assert Blank(post.body) <==> !exists i :: 0 <= i < |post.body| && !IsSpace(post.body[i]);
      if post.parent.Some? {
        assert t.IsLive(post.parent.value) <==> PublishedAndThere(t, post.parent.value);
      }
      if post.quoteOf.Some? {
        assert t.IsLive(post.quoteOf.value) <==> PublishedAndThere(t, post.quoteOf.value);
      } else if post.repostOf.Some? {
        assert t.IsLive(post.repostOf.value) <==> PublishedAndThere(t, post.repostOf.value);
      }
    }
  }

  /** `b` has the rows of `a`, except that the status of `p` is `status`. */
  ghost predicate OnlyStatusOf(a: map<PostId, Post>, b: map<PostId, Post>, p: PostId, status: Status) {
    a.Keys == b.Keys && forall q :: q in a ==> b[q] == if q == p then a[q].(status := status) else a[q]
  }

  /** Publish raises only for a missing post, and does not look at the status. */
  lemma PublishEffect(t: Tables, p: PostId)
    ensures var r := Exec(t, Publish, p);
      && (r.Success? <==> p in t.posts)
      && (r.Success? ==> r.value == t.(posts := r.value.posts) && OnlyStatusOf(t.posts, r.value.posts, p, Published))
  {
  }

  /** The failure mark only touches a post that is still processing. */
  lemma MarkFailedEffect(t: Tables, p: PostId)
    ensures var next := MarkFailed(t, p);
      if p in t.posts && t.posts[p].status == Processing
      then next == t.(posts := next.posts) && OnlyStatusOf(t.posts, next.posts, p, Failed)
      else next == t
  {
  }

  // ----- Labels

  /** Lower case for ASCII letters; the long s is an s. */
  function Lower(c: char): char {
    if 'A' <= c <= 'Z' then (c as int + 32) as char else if c == '\U{017F}' then 's' else c
  }

  /** The two characters that fold to a pair, written as that pair. */
  function Spelled(s: string): string {
    if s == "" then "" else SpelledChar(s[0]) + Spelled(s[1..])
  }

  ghost predicate NoPairs(s: string) {
    forall i :: 0 <= i < |s| ==> s[i] != '\U{0149}' && s[i] != '\U{1E98}'
  }

  /** How one character is spelled. */
  function SpelledChar(c: char): string {
    if c == '\U{0149}' then "\U{02BC}n" else if c == '\U{1E98}' then "w\U{030A}" else [c]
  }

  lemma {:induction false} SpelledFolds(s: string)
    ensures NoPairs(Spelled(s)) && Folded(Spelled(s)) == Folded(s)
  {
    if s != "" {
      SpelledFolds(s[1..]);
      CharFolds(s[0]);
      FoldedConcat(SpelledChar(s[0]), Spelled(s[1..]));
    }
  }

  lemma {:induction false} FoldedConcat(a: string, b: string)
    ensures Folded(a + b) == Folded(a) + Folded(b)
  {
    if a == "" {
      assert a + b == b;
    } else {
      assert (a + b)[1..] == a[1..] + b;
      FoldedConcat(a[1..], b);
    }
  }

  lemma FoldedOne(c: char)
    ensures Folded([c]) == Fold(c)
  {
    assert [c][1..] == "";
  }

  lemma CharFolds(c: char)
    ensures NoPairs(SpelledChar(c)) && Folded(SpelledChar(c)) == Fold(c)
  {
    if c == '\U{0149}' {
      TwoFold('\U{02BC}', 'n');
    } else if c == '\U{1E98}' {
      TwoFold('w', '\U{030A}');
    } else {
      FoldedOne(c);
    }
  }

  lemma TwoFold(c: char, d: char)
    ensures Folded([c, d]) == Fold(c) + Fold(d)
  {
    assert [c, d] == [c] + [d];
    FoldedConcat([c], [d]);
    FoldedOne(c);
    FoldedOne(d);
  }

  lemma {:induction false} FoldedSimple(s: string)
    requires NoPairs(s)
    ensures |Folded(s)| == |s| && forall i :: 0 <= i < |s| ==> Folded(s)[i] == Lower(s[i])
  {
    if s != "" {
      assert forall i :: 0 <= i < |s[1..]| ==> s[1..][i] == s[i + 1];
      FoldedSimple(s[1..]);
      assert Folded(s) == [Lower(s[0])] + Folded(s[1..]);
    }
  }

  /** `word` stands in the text from place `i` on, whatever the case of its letters. */
  predicate StandsAt(text: string, word: string, i: nat) {
    i + |word| <= |text| && forall j :: 0 <= j < |word| ==> Lower(text[i + j]) == word[j]
  }

  /** The hit is the first word of the list that the text contains. */
  lemma {:induction false} HitIsFirst(words: seq<string>, text: string)
    ensures match FirstHit(words, text)
      case None => forall w :: w in words ==> !Contains(text, w)
      case Some(w) => exists k :: 0 <= k < |words| && words[k] == w && Contains(text, w)
                                  && forall j :: 0 <= j < k ==> !Contains(text, words[j])
  {
    if words != [] {
      if Contains(text, words[0]) {
        assert 0 < |words| && words[0] == words[0];
      } else {
        HitIsFirst(words[1..], text);
        if FirstHit(words[1..], text).Some? {
          var w := FirstHit(words[1..], text).value;
          var k :| 0 <= k < |words[1..]| && words[1..][k] == w && Contains(text, w)
            && forall j :: 0 <= j < k ==> !Contains(text, words[1..][j]);
          assert words[k + 1] == w;
          forall j | 0 <= j < k + 1
            ensures !Contains(text, words[j])
          {
            assert j > 0 ==> words[1..][j - 1] == words[j];
          }
        }
      }
    }
  }

  /** `word` starts at place `i`, compared character by character. */
  lemma PrefixAt(folded: string, word: string, i: nat)
    requires i <= |folded|
    ensures word <= folded[i..] <==> i + |word| <= |folded| && forall j :: 0 <= j < |word| ==> folded[i + j] == word[j]
  {
    if i + |word| <= |folded| && forall j :: 0 <= j < |word| ==> folded[i + j] == word[j] {
      assert folded[i..][..|word|] == word;
    }
    if word <= folded[i..] {
      assert forall j :: 0 <= j < |word| ==> word[j] == folded[i..][j];
    }
  }

  lemma StandsInFolded(text: string, folded: string, word: string, i: nat)
    requires |folded| == |text| && i <= |text| && forall k :: 0 <= k < |text| ==> folded[k] == Lower(text[k])
    ensures StandsAt(text, word, i) <==> word <= folded[i..]
  {
    PrefixAt(folded, word, i);
  }

  lemma ContainsIsStanding(text: string, word: string)
    requires NoPairs(text)
    ensures Contains(Folded(text), word) <==> exists i: nat :: StandsAt(text, word, i)
  {
    FoldedSimple(text);
    StandsSomewhere(text, Folded(text), word);
  }

  lemma StandsSomewhere(text: string, folded: string, word: string)
    requires |folded| == |text| && forall k :: 0 <= k < |text| ==> folded[k] == Lower(text[k])
    ensures Contains(folded, word) <==> exists i: nat :: StandsAt(text, word, i)
  {
    forall i: nat | i <= |text|
      ensures StandsAt(text, word, i) <==> word <= folded[i..]
    {
      StandsInFolded(text, folded, word, i);
    }
  }

  ghost predicate Holds(text: string, word: string) {
    exists i: nat :: StandsAt(text, word, i)
  }

  /** The keyword screen in plain words: a text is found out if and only if one of the words stands in it, in any case, and
      the reason names the first of the list that does. */
  lemma ScreenFinds(text: string)
    ensures DetectNsfw(text).Some? <==> exists w :: w in NSFW_KEYWORDS && Holds(Spelled(text), w)
    ensures DetectNsfw(text).Some? ==>
      exists k :: 0 <= k < |NSFW_KEYWORDS| && DetectNsfw(text).value == "keyword:" + NSFW_KEYWORDS[k]
        && Holds(Spelled(text), NSFW_KEYWORDS[k]) && forall j :: 0 <= j < k ==> !Holds(Spelled(text), NSFW_KEYWORDS[j])
  {
    SpelledFolds(text);
    HitIsFirst(NSFW_KEYWORDS, Folded(text));
    forall w: string
      ensures Contains(Folded(text), w) <==> Holds(Spelled(text), w)
    {
      ContainsIsStanding(Spelled(text), w);
    }
  }

  /** Two label rows for a stored post whose text is not blank and found out; nothing otherwise, and never an error. */
  lemma LabelEffect(t: Tables, p: PostId)
    ensures var r := Exec(t, ApplyLabels, p);
      && r.Success?
      && (if p in t.posts && DetectNsfw(t.posts[p].body).Some? && (exists i :: 0 <= i < |t.posts[p].body| && !IsSpace(t.posts[p].body[i]))
          then r.value == t.(labels := t.labels[(p, Nsfw) := DetectNsfw(t.posts[p].body).value]
                                               [(p, DoNotAmplify) := "nsfw:" + DetectNsfw(t.posts[p].body).value])
          else r.value == t)
  {
  }

  // ----- The feed, vectors and counters

  predicate PublishedRow(t: Tables, p: PostId) {
    p in t.posts && t.posts[p].status == Published
  }

  /** Fan-out raises unless the post is published, and does nothing for a deleted one. Otherwise it adds a row for the
      author and for every follower that has none. */
  lemma FanOutEffect(t: Tables, p: PostId)
    ensures var r := Exec(t, FanOut, p);
      && (r.Success? <==> PublishedRow(t, p))
      && (r.Success? ==>
           && r.value == t.(feed := r.value.feed)
           && (forall k :: k in r.value.feed <==>
                k in t.feed || (k.1 == p && !t.posts[p].deleted
                                && (k.0 == t.posts[p].author || (k.0, t.posts[p].author) in t.follows)))
           && (forall k :: k in t.feed ==> r.value.feed[k] == t.feed[k])
           && (forall k :: k in r.value.feed && k !in t.feed ==>
                r.value.feed[k].author == t.posts[p].author && r.value.feed[k].createdAt == t.posts[p].createdAt))
  {
  }

  lemma EmbeddingEffect(t: Tables, p: PostId)
    ensures var r := Exec(t, Embed, p);
      && (r.Success? <==> PublishedRow(t, p))
      && (r.Success? ==> r.value == t.(embeddings := t.embeddings[p := EmbedText(t.posts[p].body)]))
  {
  }

  /** A missing engagement row is created with zeros; one that is there stays. */
  lemma EngagementInitEffect(t: Tables, p: PostId)
    ensures var r := Exec(t, EngagementInit, p);
      && (r.Success? <==> PublishedRow(t, p))
      && (r.Success? ==>
           r.value == if p in t.engagement then t else t.(engagement := t.engagement[p := Engagement(0, 0, 0)]))
  {
  }

  /** The live posts that answer or repost `q`. */
  function LiveAnswers(t: Tables, q: PostId): set<PostId> {
    set p | p in t.posts && PublishedAndThere(t, p) && t.posts[p].parent == Some(q)
  }

  function LiveReposts(t: Tables, q: PostId): set<PostId> {
    set p | p in t.posts && PublishedAndThere(t, p) && t.posts[p].repostOf == Some(q)
  }

  function CountersOf(t: Tables, q: PostId): Engagement {
    if q in t.engagement then t.engagement[q] else Engagement(0, 0, 0)
  }

  /** The recounts write the true number of live replies or reposts, keep the other two counters, and never raise. */
  lemma RecountEffect(t: Tables, p: PostId)
    ensures var r := Exec(t, ReplyCount, p);
      && r.Success?
      && (if PublishedAndThere(t, p) && t.posts[p].parent.Some? then
            var q := t.posts[p].parent.value;
            r.value == t.(engagement := t.engagement[q :=
              Engagement(CountersOf(t, q).likes, |LiveAnswers(t, q)|, CountersOf(t, q).reposts)])
          else r.value == t)
    ensures var r := Exec(t, RepostCount, p);
      && r.Success?
      && (if PublishedAndThere(t, p) && t.posts[p].repostOf.Some? then
            var q := t.posts[p].repostOf.value;
            r.value == t.(engagement := t.engagement[q :=
              Engagement(CountersOf(t, q).likes, CountersOf(t, q).replies, |LiveReposts(t, q)|)])
          else r.value == t)
  {
    assert t.IsLive(p) <==> PublishedAndThere(t, p);
    forall q: PostId
      ensures LiveAnswers(t, q) == Replies(t, q) && LiveReposts(t, q) == Reposts(t, q)
    {
    }
  }

  /** A live reply to another author's post is announced to that author, once; otherwise nothing happens. */
  lemma ReplyNotice(t: Tables, p: PostId)
    ensures var r := Exec(t, NotifyReply, p);
      && r.Success?
      && (if PublishedAndThere(t, p) && t.posts[p].parent.Some? && t.posts[p].parent.value in t.posts
             && t.posts[t.posts[p].parent.value].author != t.posts[p].author
             && !(exists q, actor :: PostReplied(t.posts[t.posts[p].parent.value].author, q, p, actor) in t.notices)
          then
            var parent := t.posts[p].parent.value;
            r.value == t.(notices := t.notices + multiset{PostReplied(t.posts[parent].author, parent, p, t.posts[p].author)})
          else r.value == t)
  {
    if PublishedAndThere(t, p) && t.posts[p].parent.Some? && t.posts[p].parent.value in t.posts {
      var user := t.posts[t.posts[p].parent.value].author;
      if ReplyNoticed(t, user, p) {
        var n :| n in t.notices && n.PostReplied? && n.user == user && n.source == p;
        assert n == PostReplied(user, n.post, p, n.actor);
      }
    }
  }

  /** The same for a repost. */
  lemma RepostNotice(t: Tables, p: PostId)
    ensures var r := Exec(t, NotifyRepost, p);
      && r.Success?
      && (if PublishedAndThere(t, p) && t.posts[p].repostOf.Some? && t.posts[p].repostOf.value in t.posts
             && t.posts[t.posts[p].repostOf.value].author != t.posts[p].author
             && !(exists q, actor :: PostReposted(t.posts[t.posts[p].repostOf.value].author, q, p, actor) in t.notices)
          then
            var original := t.posts[p].repostOf.value;
            r.value == t.(notices := t.notices + multiset{PostReposted(t.posts[original].author, original, p, t.posts[p].author)})
          else r.value == t)
  {
    if PublishedAndThere(t, p) && t.posts[p].repostOf.Some? && t.posts[p].repostOf.value in t.posts {
      var user := t.posts[t.posts[p].repostOf.value].author;
      if RepostNoticed(t, user, p) {
        var n :| n in t.notices && n.PostReposted? && n.user == user && n.source == p;
        assert n == PostReposted(user, n.post, p, n.actor);
      }
    }
  }

  /** White space, range by range: 25 characters of Unicode and the four separators of ASCII. */
  lemma Spaces(c: char)
    ensures IsSpace(c) <==>
      || c in {'\t', '\n', '\U{000B}', '\U{000C}', '\r', '\U{001C}', '\U{001D}', '\U{001E}', '\U{001F}', ' '}
      || c in {'\U{0085}', '\U{00A0}', '\U{1680}', '\U{2028}', '\U{2029}', '\U{202F}', '\U{205F}', '\U{3000}'}
      || c in {'\U{2000}', '\U{2001}', '\U{2002}', '\U{2003}', '\U{2004}', '\U{2005}', '\U{2006}', '\U{2007}', '\U{2008}',
               '\U{2009}', '\U{200A}'}
  {
  }
}
