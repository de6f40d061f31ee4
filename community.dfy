/** The community feed (pages/Community.jsx): the per-post comments toggle, the
    blank-content and blank-comment guards, and the avatar initial. Server replies
    are inputs of the actions. */
module Community {
  import opened Common
  import opened Text

  /** A post as the page holds it. `author` is `None` when the field is missing, and
      `showComments` is `None` until the toggle first touches the post (JavaScript's
      `undefined`). */
  datatype FeedPost = FeedPost(
    id: int,
    author: Option<string>,
    content: string,
    likes: int,
    showComments: Option<bool>)

  const EmptyPost := "Digite algo antes de postar."
  const PostError := "Erro ao enviar post. Verifique se está logado."
  const LoadError := "Erro ao carregar posts"

  /** `p.showComments` read as a condition: `undefined` counts as hidden. */
  predicate Visible(p: FeedPost)
  {
    p.showComments == Some(true)
  }

  /** The toggle button: `showComments: !x.showComments` on the post with `id`. */
  function ToggleComments(posts: seq<FeedPost>, id: int): (r: seq<FeedPost>)
    ensures |r| == |posts|
    ensures forall i :: 0 <= i < |posts| ==>
      (Visible(r[i]) <==> (Visible(posts[i]) != (posts[i].id == id))) &&
      r[i].(showComments := None) == posts[i].(showComments := None)
  {
    seq(|posts|, i requires 0 <= i < |posts| =>
      if posts[i].id == id then posts[i].(showComments := Some(!Visible(posts[i]))) else posts[i])
  }

  /** `p.author?.[0] || "?"`: the first character, or `?` for a missing or empty
      author. */
  function AvatarInitial(author: Option<string>): (r: string)
    ensures |r| == 1
    ensures author.Some? && author.value != [] ==> r == [author.value[0]]
    ensures author.None? || author.value == [] ==> r == "?"
  {
    if author.Some? && author.value != [] then [author.value[0]] else "?"
  }

  /** What `handleSubmit` and `handleComment` do with the typed text: refuse it when
      it is blank, otherwise send it exactly as typed (untrimmed). */
  function Outgoing(text: string): (r: Option<string>)
    ensures r.None? <==> AllSpace(text)
    ensures r.Some? ==> r.value == text
  {
    TrimEmptyIffAllSpace(text);
    if Trim(text) == [] then None else Some(text)
  }

  // ---------------------------------------------------------------- properties

  /** Toggling the same post twice restores whether its comments are shown (the
      field itself changes from `undefined` to `false` on a hidden post), and the
      other posts are not touched. */
  lemma ToggleTwiceRestores(posts: seq<FeedPost>, id: int)
    ensures var r := ToggleComments(ToggleComments(posts, id), id);
      |r| == |posts| &&
      forall i :: 0 <= i < |posts| ==>
        (Visible(r[i]) <==> Visible(posts[i])) &&
        (posts[i].id != id ==> r[i] == posts[i])
  {
    var once := ToggleComments(posts, id);
    var r := ToggleComments(once, id);
    forall i | 0 <= i < |posts|
      ensures Visible(r[i]) <==> Visible(posts[i])
      ensures posts[i].id != id ==> r[i] == posts[i]
    {
      assert once[i].id == posts[i].id;
    }
  }

  /** Toggling an id no post has changes nothing. */
  lemma ToggleUnknownUnchanged(posts: seq<FeedPost>, id: int)
    requires forall i :: 0 <= i < |posts| ==> posts[i].id != id
    ensures ToggleComments(posts, id) == posts
  {
  }

  // ---------------------------------------------------------------- component

  /** The state of the Community page. */
  class CommunityPage {
    var posts: seq<FeedPost>
    var content: string
    var error: string

    constructor ()
      ensures posts == [] && content == [] && error == []
    {
      posts, content, error := [], [], [];
    }

    /** `fetchPosts`; `reply` is the list, or `None` when the request fails. */
    method FetchPosts(reply: Option<seq<FeedPost>>)
      modifies this
      ensures reply.Some? ==> posts == reply.value && error == old(error)
      ensures reply.None? ==> posts == old(posts) && error == LoadError
      ensures content == old(content)
    {
      match reply
      case Some(list) => posts := list;
      case None => error := LoadError;
    }

    /** The comments button of the post `id`. */
    method ToggleCommentsOf(id: int)
      modifies this
      ensures posts == ToggleComments(old(posts), id)
      ensures content == old(content) && error == old(error)
    {
      posts := ToggleComments(posts, id);
    }

    /** `handleSubmit` up to the refresh; `sent` is the content of the request, if one
        is made, and `posted` whether it succeeded. */
    method Submit(posted: bool) returns (sent: Option<string>)
      modifies this
      ensures sent.None? <==> AllSpace(old(content))
      ensures sent.Some? ==> sent.value == old(content)
      ensures sent.None? ==> error == EmptyPost && content == old(content)
      ensures sent.Some? && posted ==> error == [] && content == []
      ensures sent.Some? && !posted ==> error == PostError && content == old(content)
      ensures posts == old(posts)
    {
      sent := Outgoing(content);
      if sent.None? {
        error := EmptyPost;
        return;
      }
      error := [];
      if posted {
        content := [];
      } else {
        error := PostError;
      }
    }
  }
}
