/** What both drafters put in the "LinkedIn Posts:" section of their prompts. */
module Prompting {
  import opened Text

  const NoPostsPlaceholder := "No specific social media content provided."

  /**
    The posts section: the posts exactly as given when they hold any
    non-whitespace character, otherwise the fixed placeholder sentence, so the
    section is never blank.
  */
  function PostsSection(posts: string): (r: string)
    ensures !IsBlank(r)
    ensures IsBlank(posts) ==> r == NoPostsPlaceholder
    ensures !IsBlank(posts) ==> r == posts
  {
    if IsBlank(posts) then
      StripKeepsFirst(NoPostsPlaceholder);
      NoPostsPlaceholder
    else
      posts
  }

  /** The lines both drafters' prompts start with, up to the drafter's closing request. */
  function PromptHead(website: string): string {
    "\nCompany Website:\n" + website + "\n\nLinkedIn Posts:\n"
  }

  /** The instructions section that follows the posts. */
  function PromptTail(instructions: string): string {
    "\n\nInstructions:\n" + instructions + "\n\n"
  }

  function PromptPreamble(website: string, posts: string, instructions: string): string {
    PromptHead(website) + PostsSection(posts) + PromptTail(instructions)
  }

  /**
    Right after the head of the prompt comes the posts section: the posts
    verbatim and untrimmed, or the placeholder when they are blank.
  */
  lemma PreambleCarriesPosts(website: string, posts: string, instructions: string)
    ensures var k := |PromptHead(website)|;
            var p := PromptPreamble(website, posts, instructions);
            k + |PostsSection(posts)| <= |p| && p[k..k + |PostsSection(posts)|] == PostsSection(posts)
  {
    var head := PromptHead(website);
    var sec := PostsSection(posts);
    var p := head + sec + PromptTail(instructions);
    assert p[|head|..|head| + |sec|] == sec;
  }

  /** Posts that are empty or whitespace only are indistinguishable in the prompt. */
  lemma BlankPostsGiveOnePrompt(website: string, p1: string, p2: string, instructions: string)
    requires IsBlank(p1) && IsBlank(p2)
    ensures PromptPreamble(website, p1, instructions) == PromptPreamble(website, p2, instructions)
  {
  }
}
