// Posts and the index row a post gets.
module Posts {
  import opened ExpireIndex

  // rootId is empty for a post that starts a thread.
  datatype Post = Post(id: PostId, channelId: ChannelId, rootId: PostId, createAt: int)

  function ThreadRoot(post: Post): PostId {
    if post.rootId != "" then post.rootId else post.id
  }

  function RowFor(post: Post, at: int, createdAt: int): Entry {
    Entry(post.id, post.channelId, ThreadRoot(post), at, createdAt)
  }
}
