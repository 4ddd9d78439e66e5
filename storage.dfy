/** The browser's `localStorage` entry "memoryKeeperStories", seen through
    `JSON.parse`/`JSON.stringify`: the stored list of stories, oldest first. */
module Storage {
  import opened Records

  class StoryStore {
    var stories: seq<Story>

    /** A store holding `initial`; a missing entry reads as the empty list. */
    constructor(initial: seq<Story>)
      ensures stories == initial
    {
      stories := initial;
    }
  }
}
