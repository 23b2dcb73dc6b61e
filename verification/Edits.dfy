/**
 Requests on a board that holds posts: which of them the server accepts, which stop the program, which leave the file
 holding the edited posts and which can be taken back; and what that means for any sequence of requests and undos.
 */
module Edits {
  import opened Text
  import opened Utilities
  import opened Wire
  import opened Boards
  import opened FileLines
  import opened Posts

  /** The text of a well-formed REPLACE argument. */
  function ArgumentText(argument: string): string
    requires WellFormedArgument(argument)
  {
    argument[Stretch(argument, '/') + 1..]
  }

  /** The post that a request stores. */
  function NewPost(user: string, op: Op): Post
    requires op.Replace? ==> WellFormedArgument(op.argument)
  {
    Post(user, if op.Write? then op.message else ArgumentText(op.argument))
  }

  /** What the server lets through on a board with these posts. */
  predicate Accepted(posts: seq<Post>, user: string, op: Op) {
    && (op.Replace? ==>
          WellFormedArgument(op.argument) && ArgumentNumber(op.argument) <= INT_MAX
              && ArgumentNumber(op.argument) < |posts|)
    && GoodPost(NewPost(user, op))
  }

  /** What a request is meant to do to the posts. */
  function Edited(posts: seq<Post>, user: string, op: Op): seq<Post>
    requires Accepted(posts, user, op)
  {
    if op.Write? then posts + [NewPost(user, op)] else posts[ArgumentNumber(op.argument) := NewPost(user, op)]
  }

  /** The message a REPLACE overwrites is not made of slashes only. */
  predicate Runs(posts: seq<Post>, user: string, op: Op)
    requires Accepted(posts, user, op)
  {
    op.Replace? ==> HasText(posts[ArgumentNumber(op.argument)].message)
  }

  /** The new line fits the buffer of a WRITE, or what the line reader takes in one piece. */
  predicate Fits(posts: seq<Post>, user: string, op: Op)
    requires Accepted(posts, user, op)
  {
    if op.Write? then |StoredLine(|posts|, user, op.message)| <= 254
    else |LineText(ArgumentNumber(op.argument), NewPost(user, op))| < READLINE_LIMIT
  }

  /** What the undo of a REPLACE depends on; a WRITE can always be undone. */
  predicate Undoable(posts: seq<Post>, user: string, op: Op)
    requires Accepted(posts, user, op)
  {
    op.Replace? ==>
      var k := ArgumentNumber(op.argument);
      '/' !in posts[k].message && |StoredLine(k, user, ArgumentText(op.argument))| <= 256
  }

  lemma AcceptedArguments(posts: seq<Post>, user: string, argument: string)
    requires Accepted(posts, user, Replace(argument))
    ensures ReplaceArguments(argument) == Some((ArgumentNumber(argument), ArgumentText(argument)))
  {
    hide Tokens;
    TokensOfArgument(argument);
    StoiOfDigits(argument[..Stretch(argument, '/')]);
  }

  /** Which accepted requests stop the program. */
  lemma RunsExactly(b: Board, posts: seq<Post>, user: string, op: Op)
    requires Holds(b, posts) && Accepted(posts, user, op)
    ensures Runnable(b, op) <==> Runs(posts, user, op)
  {
    hide LineAt, LineText, FileOf, ReplaceArguments, WellFormedArgument, HasText;
    if op.Replace? {
      AcceptedArguments(posts, user, op.argument);
      RunnableOnPosts(b, posts, ArgumentNumber(op.argument), op.argument, ArgumentText(op.argument));
    }
  }

  /** Which of the others leave the file holding the edited posts. */
  lemma FitsExactly(b: Board, posts: seq<Post>, user: string, op: Op)
    requires Holds(b, posts) && Accepted(posts, user, op) && Runs(posts, user, op)
    ensures Holds(Perform(b, user, op), Edited(posts, user, op)) <==> Fits(posts, user, op)
  {
    hide LineAt, LineText, FileOf, ReplaceArguments, WellFormedArgument, HasText, Perform, Holds, Runnable;
    match op
    case Write(message) => WriteAppends(b, posts, Post(user, message));
    case Replace(argument) =>
      AcceptedArguments(posts, user, argument);
      RunsExactly(b, posts, user, op);
      ReplaceUpdates(b, posts, ArgumentNumber(argument), NewPost(user, op), argument);
  }

  /** Which of them an undo takes back byte for byte. */
  lemma UndoableExactly(b: Board, posts: seq<Post>, user: string, op: Op)
    requires Holds(b, posts) && Accepted(posts, user, op) && Runs(posts, user, op)
    ensures Revert(Perform(b, user, op), UndoOf(b, op)) == b <==> Undoable(posts, user, op)
  {
    hide LineAt, LineText, FileOf, ReplaceArguments, WellFormedArgument, HasText, Perform, Holds, Runnable, Revert,
        UndoOf;
    match op
    case Write(message) => UndoOfWriteRestores(b, user, message);
    case Replace(argument) =>
      AcceptedArguments(posts, user, argument);
      RunsExactly(b, posts, user, op);
      UndoOfReplaceRestores(b, posts, ArgumentNumber(argument), NewPost(user, op), argument);
  }

  /** Posts determine the board that holds them. */
  lemma OneBoard(b: Board, other: Board, posts: seq<Post>)
    requires Holds(b, posts) && Holds(other, posts)
    ensures b == other
  {
  }

  lemma EmptyFileHolds()
    ensures Holds(Board("", 0), [])
  {
    assert LinesOf([]) == [];
  }

  // ----- Any sequence of requests and undos on one board -----

  /** A request that stays, or one that is performed and taken back under the same lock. */
  datatype Edit = Stays(user: string, op: Op) | TakenBack(user: string, op: Op)

  function BoardAfter(b: Board, e: Edit): Board {
    if e.Stays? then Perform(b, e.user, e.op) else Revert(Perform(b, e.user, e.op), UndoOf(b, e.op))
  }

  function PostsAfterEdit(posts: seq<Post>, e: Edit): seq<Post>
    requires Accepted(posts, e.user, e.op)
  {
    if e.Stays? then Edited(posts, e.user, e.op) else posts
  }

  /** Every request is accepted when its turn comes, and does not stop the program. */
  predicate Legal(posts: seq<Post>, es: seq<Edit>)
    decreases |es|
  {
    es == []
    || (&& Accepted(posts, es[0].user, es[0].op) && Runs(posts, es[0].user, es[0].op)
        && Legal(PostsAfterEdit(posts, es[0]), es[1..]))
  }

  /** Each request that stays fits, and each that is taken back can be. */
  predicate WithinLimits(posts: seq<Post>, es: seq<Edit>)
    requires Legal(posts, es)
    decreases |es|
  {
    es == []
    || ((if es[0].Stays? then Fits(posts, es[0].user, es[0].op) else Undoable(posts, es[0].user, es[0].op))
        && WithinLimits(PostsAfterEdit(posts, es[0]), es[1..]))
  }

  /** The file holds the posts in every state on the way. */
  predicate HoldsThroughout(b: Board, posts: seq<Post>, es: seq<Edit>)
    requires Legal(posts, es)
    decreases |es|
  {
    Holds(b, posts) && (es != [] ==> HoldsThroughout(BoardAfter(b, es[0]), PostsAfterEdit(posts, es[0]), es[1..]))
  }

  /**
   * Over every sequence of WRITE, REPLACE and undo the bytes of the file are the posts in order and the counter is
   * their number in every state, exactly when every request is within its limit.
   */
  lemma {:induction false} EveryStateHolds(b: Board, posts: seq<Post>, es: seq<Edit>)
    requires Holds(b, posts) && Legal(posts, es)
    ensures HoldsThroughout(b, posts, es) <==> WithinLimits(posts, es)
    decreases |es|
  {
    hide Holds, Accepted, Runs, Fits, Undoable, Edited, Perform, Revert, UndoOf;
    if es != [] {
      var e := es[0];
      var b', posts' := BoardAfter(b, e), PostsAfterEdit(posts, e);
      if e.Stays? {
        FitsExactly(b, posts, e.user, e.op);
      } else {
        UndoableExactly(b, posts, e.user, e.op);
        if Holds(b', posts) {
          OneBoard(b', b, posts);
        }
      }
      if Holds(b', posts') {
        EveryStateHolds(b', posts', es[1..]);
      }
    }
  }

  /** In particular for everything a board goes through from the empty file on. */
  lemma EveryStateHoldsFromEmpty(es: seq<Edit>)
    requires Legal([], es)
    ensures HoldsThroughout(Board("", 0), [], es) <==> WithinLimits([], es)
  {
    EmptyFileHolds();
    EveryStateHolds(Board("", 0), [], es);
  }
}
