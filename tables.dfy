/** The database session every endpoint receives: one in-memory table per ORM model,
    each in insertion order. Commit, refresh and lazy loading are not modelled. */
module Tables {
  import opened Common
  import opened Models
  import opened DonationModel

  class Db {
    var donations: seq<Donation>
    var campaigns: seq<Campaign>
    var siteContent: seq<SiteContent>
    var media: seq<Media>
    var messages: seq<ContactMessage>
    var users: seq<User>

    /** The unique constraints the schema declares. */
    ghost predicate Valid()
      reads this
    {
      TxIdsUnique(donations) && CampaignsUnique(campaigns) && KeysUnique(siteContent)
      && MediaIdsUnique(media) && MessageIdsUnique(messages) && UserEmailsUnique(users)
    }

    constructor ()
      ensures Valid()
      ensures donations == [] && campaigns == [] && siteContent == []
      ensures media == [] && messages == [] && users == []
    {
      donations, campaigns, siteContent := [], [], [];
      media, messages, users := [], [], [];
    }

    // Writing one table back: the session's add/delete/commit on that table alone.

    method PutDonations(ds: seq<Donation>)
      requires Valid() && TxIdsUnique(ds)
      modifies this`donations
      ensures donations == ds && Valid()
    {
      donations := ds;
    }

    method PutCampaigns(cs: seq<Campaign>)
      requires Valid() && CampaignsUnique(cs)
      modifies this`campaigns
      ensures campaigns == cs && Valid()
    {
      campaigns := cs;
    }

    method PutSiteContent(t: seq<SiteContent>)
      requires Valid() && KeysUnique(t)
      modifies this`siteContent
      ensures siteContent == t && Valid()
    {
      siteContent := t;
    }

    method PutMedia(ms: seq<Media>)
      requires Valid() && MediaIdsUnique(ms)
      modifies this`media
      ensures media == ms && Valid()
    {
      media := ms;
    }

    method PutMessages(ms: seq<ContactMessage>)
      requires Valid() && MessageIdsUnique(ms)
      modifies this`messages
      ensures messages == ms && Valid()
    {
      messages := ms;
    }

    method PutUsers(us: seq<User>)
      requires Valid() && UserEmailsUnique(us)
      modifies this`users
      ensures users == us && Valid()
    {
      users := us;
    }
  }
}
