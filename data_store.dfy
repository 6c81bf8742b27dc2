/**
 * The in-memory link store: a dict from link keys to records. A chat link's
 * record holds the second user's responses and the result link (none yet);
 * a result link's record holds the gift suggestions. Records are Python
 * dicts, so each of their three keys may be absent: `None` below stands for
 * an absent key, not for a stored `None`.
 *
 * `uuid.uuid4()` is replaced by a caller-supplied key that is not yet in the
 * store.
 */
module DataStore {
  import opened Wrappers
  import opened Messages

  datatype Record = Record(
    user2Responses: Option<seq<Message>>,
    resultLink: Option<Option<string>>,
    giftSuggestions: Option<seq<string>>)

  /** The fixed suggestions every result gets. */
  const GIFT_IDEAS: seq<string> := [
    "Based on their interests: A hobby-related gift",
    "Something practical they mentioned wanting",
    "A surprise gift that matches their preferences"
  ]

  /** A new chat link's record: no responses yet and a `None` result link. */
  function ChatRecord(): (r: Record)
    ensures r.user2Responses == Some([]) && r.resultLink == Some(None) && r.giftSuggestions.None?
  {
    Record(Some([]), Some(None), None)
  }

  /** A result link's record: only the suggestions. */
  function ResultRecord(suggestions: seq<string>): (r: Record)
    ensures r.giftSuggestions == Some(suggestions) && r.user2Responses.None? && r.resultLink.None?
  {
    Record(None, None, Some(suggestions))
  }

  /** The user answers `generate_gift_ideas` extracts (and then leaves
      unused). */
  function UserResponses(messages: seq<Message>): (r: seq<string>)
    ensures |r| <= |messages|
  {
    if messages == [] then []
    else (if messages[0].role == USER then [messages[0].content] else []) + UserResponses(messages[1..])
  }

  /** `generate_gift_ideas`: the three fixed suggestions, whatever the
      messages say. */
  function GenerateGiftIdeas(messages: seq<Message>): (ideas: seq<string>)
    ensures |ideas| == 3
    ensures forall k :: 0 <= k < |ideas| ==> ideas[k] != ""
  {
    var userResponses := UserResponses(messages);
    GIFT_IDEAS
  }

  /** The suggestions do not depend on the conversation at all. */
  lemma GiftIdeasIgnoreInput(a: seq<Message>, b: seq<Message>)
    ensures GenerateGiftIdeas(a) == GenerateGiftIdeas(b)
  {
  }

  /** The store after a successful save: the chat record gets the responses
      and the result link (its other keys kept), and the result link maps to
      a new result record. */
  function Saved(store: map<string, Record>, linkA: string, responses: seq<Message>, linkB: string): map<string, Record>
    requires linkA in store
  {
    var chat := store[linkA].(user2Responses := Some(responses), resultLink := Some(Some(linkB)));
    store[linkA := chat][linkB := ResultRecord(GenerateGiftIdeas(responses))]
  }

  /** A save adds exactly the result key, rewrites the two fields of the
      chat record and changes no other entry. */
  lemma SavedFrame(store: map<string, Record>, linkA: string, responses: seq<Message>, linkB: string)
    requires linkA in store && linkB !in store
    ensures var after := Saved(store, linkA, responses, linkB);
      && after.Keys == store.Keys + {linkB}
      && after[linkB] == ResultRecord(GenerateGiftIdeas(responses))
      && after[linkA].user2Responses == Some(responses)
      && after[linkA].resultLink == Some(Some(linkB))
      && after[linkA].giftSuggestions == store[linkA].giftSuggestions
      && (forall k :: k in store && k != linkA ==> after[k] == store[k])
  {
  }

  /** Saving twice for one chat link overwrites its responses and result
      link, while the first result record stays reachable. */
  lemma SaveTwiceKeepsEarlierResult(store: map<string, Record>, linkA: string,
                                    first: seq<Message>, linkB1: string,
                                    second: seq<Message>, linkB2: string)
    requires linkA in store && linkB1 !in store
    requires linkB2 !in Saved(store, linkA, first, linkB1)
    ensures var once := Saved(store, linkA, first, linkB1);
      var twice := Saved(once, linkA, second, linkB2);
      && twice[linkB1] == ResultRecord(GenerateGiftIdeas(first))
      && twice[linkB2] == ResultRecord(GenerateGiftIdeas(second))
      && twice[linkA].user2Responses == Some(second)
      && twice[linkA].resultLink == Some(Some(linkB2))
      && twice.Keys == store.Keys + {linkB1, linkB2}
  {
    SavedFrame(store, linkA, first, linkB1);
    SavedFrame(Saved(store, linkA, first, linkB1), linkA, second, linkB2);
  }

  /** What `get_gift_suggestions` gives: `None` for an unknown key, the
      stored list, or a KeyError for a record without suggestions. */
  datatype Lookup = NotFound | Found(suggestions: seq<string>) | KeyError

  function Suggestions(store: map<string, Record>, linkB: string): (r: Lookup)
    ensures r == NotFound <==> linkB !in store
    ensures r.Found? <==> linkB in store && store[linkB].giftSuggestions.Some?
    ensures r.Found? ==> r.suggestions == store[linkB].giftSuggestions.value
  {
    if linkB !in store then NotFound
    else
      match store[linkB].giftSuggestions
      case None => KeyError
      case Some(suggestions) => Found(suggestions)
  }

  /** A result link reads back the fixed suggestions of its save; a new
      chat link has no suggestions, so reading it raises. */
  lemma LookupAfterSave(store: map<string, Record>, linkA: string, responses: seq<Message>, linkB: string)
    requires linkA in store && linkB !in store
    ensures Suggestions(Saved(store, linkA, responses, linkB), linkB) == Found(GIFT_IDEAS)
    ensures Suggestions(store[linkB := ChatRecord()], linkB) == KeyError
  {
  }

  /** The module-level `data_store` dict. */
  class LinkStore {
    var dataStore: map<string, Record>

    constructor()
      ensures dataStore == map[]
    {
      dataStore := map[];
    }

    /** `generate_chat_link`, with `newKey` standing for the new uuid. */
    method GenerateChatLink(newKey: string) returns (linkA: string)
      requires newKey !in dataStore
      modifies this
      ensures linkA == newKey
      ensures dataStore == old(dataStore)[newKey := ChatRecord()]
      ensures dataStore.Keys == old(dataStore).Keys + {newKey}
    {
      linkA := newKey;
      dataStore := dataStore[linkA := ChatRecord()];
    }

    /** `save_chat_and_generate_result_link`, with `newKey` standing for the
        new uuid: `None` and no change for an unknown chat link. */
    method SaveChatAndGenerateResultLink(linkA: string, responses: seq<Message>, newKey: string)
      returns (linkB: Option<string>)
      requires newKey !in dataStore
      modifies this
      ensures linkA !in old(dataStore) ==> linkB == None && dataStore == old(dataStore)
      ensures linkA in old(dataStore) ==>
        linkB == Some(newKey) && dataStore == Saved(old(dataStore), linkA, responses, newKey)
    {
      if linkA !in dataStore {
        return None;
      }
      var newLink := newKey;
      dataStore := dataStore[linkA := dataStore[linkA].(user2Responses := Some(responses))];
      dataStore := dataStore[linkA := dataStore[linkA].(resultLink := Some(Some(newLink)))];
      dataStore := dataStore[newLink := ResultRecord(GenerateGiftIdeas(responses))];
      linkB := Some(newLink);
    }

    /** `get_gift_suggestions`: a read that changes nothing. */
    method GetGiftSuggestions(linkB: string) returns (r: Lookup)
      ensures r == Suggestions(dataStore, linkB)
    {
      if linkB !in dataStore {
        return NotFound;
      }
      match dataStore[linkB].giftSuggestions {
        case None => r := KeyError;
        case Some(suggestions) => r := Found(suggestions);
      }
    }
  }
}
