/** The wish templates of `WishService`, each with its tone. */
module WishTemplates {
  datatype WishTemplate = WishTemplate(template: string, tone: string)

  /** Universal templates, for every category and tone. */
  const UniversalTemplates: seq<WishTemplate> := [
    WishTemplate("Happy {ordinal} birthday, {name}! May this year bring you endless joy, beautiful moments, and all the happiness you deserve. 🎂✨", "heartfelt"),
    WishTemplate("Wishing you the happiest of birthdays, {name}! You're such an amazing person, and I hope your {ordinal} year is filled with love and laughter. 💕", "heartfelt"),
    WishTemplate("{name}, happy birthday! Another year of you being awesome! May all your dreams come true this year. 🌟", "heartfelt"),
    WishTemplate("Happy birthday to someone who makes the world a brighter place just by being in it! Have an amazing {ordinal} birthday, {name}! 🎈", "heartfelt"),
    WishTemplate("To a truly wonderful person - happy {ordinal} birthday, {name}! Wishing you a day filled with love, laughter, and cake! 🎂", "heartfelt"),
    WishTemplate("Happy {ordinal} birthday, {name}! Don't worry about getting older - you're like a fine wine, getting better with age! 🍷😄", "funny"),
    WishTemplate("{name}, you're not {age}, you're just {age} years young with a lot of experience! Happy birthday! 🎉😂", "funny"),
    WishTemplate("Happy birthday, {name}! At {age}, you've officially unlocked the 'distinguished' achievement! Level up! 🎮🎂", "funny"),
    WishTemplate("Congrats on surviving another trip around the sun, {name}! {age} looks great on you! 🌞🎈", "funny"),
    WishTemplate("Happy {ordinal} birthday! Remember, age is just a number... a really big, scary number! Just kidding, {name}! 😜🎂", "funny"),
    WishTemplate("{name}, they say with age comes wisdom. So you must be REALLY wise by now! Happy {ordinal}! 🦉😄", "funny"),
    WishTemplate("Happy {ordinal} birthday, {name}! May this new chapter bring you courage to chase your dreams and strength to achieve them all! 💪✨", "inspirational"),
    WishTemplate("{name}, happy birthday! Your {ordinal} year is a blank canvas - paint it with bold colors and beautiful adventures! 🎨🌈", "inspirational"),
    WishTemplate("Happy birthday, {name}! At {age}, you're just getting started. The best is yet to come! 🚀⭐", "inspirational"),
    WishTemplate("Wishing you a birthday filled with new opportunities and exciting possibilities, {name}! Make your {ordinal} year legendary! 🌟", "inspirational"),
    WishTemplate("{name}, happy {ordinal} birthday! Remember: every day is a chance to write a new story. Make yours epic! 📖✨", "inspirational"),
    WishTemplate("Wishing you a very happy {ordinal} birthday, {name}. May this year bring you success and fulfillment in all your endeavors. 🎂", "formal"),
    WishTemplate("Happy birthday, {name}! Wishing you a wonderful {ordinal} year filled with achievements and happiness. 🎈", "formal"),
    WishTemplate("On your special day, {name}, I wish you a happy {ordinal} birthday and a year of continued success. Best wishes! 🌟", "formal"),
    WishTemplate("Happy {ordinal} birthday, {name}! 🎂🎉", "neutral"),
    WishTemplate("Wishing you an amazing birthday, {name}! Enjoy your special day! 🎈✨", "neutral"),
    WishTemplate("Happy birthday, {name}! Hope your {ordinal} is absolutely wonderful! 🎂💫", "neutral")
  ]

  /** The extra templates for a category named "family". */
  const FamilyTemplates: seq<WishTemplate> := [
    WishTemplate("Happy {ordinal} birthday to the most amazing {name}! Our family is blessed to have you. Love you always! 💕👨‍👩‍👧‍👦", "heartfelt"),
    WishTemplate("{name}, watching you turn {age} fills my heart with so much pride and love. Happy birthday to my favorite person! 🥰", "heartfelt"),
    WishTemplate("To my dear {name} on your {ordinal} birthday - you mean the world to our family! Here's to many more years of memories together! 💝", "heartfelt"),
    WishTemplate("Happy birthday, {name}! {age} years of being the best! Family gatherings wouldn't be the same without you! 🏠❤️", "heartfelt"),
    WishTemplate("{name}, happy {ordinal} birthday! Thank you for all the love and support you give our family. You're truly one of a kind! 🌟", "heartfelt"),
    WishTemplate("Happy birthday! At {age}, {name}, you're still the person I look up to most. Thanks for being such an amazing family member! 💪❤️", "inspirational")
  ]

  /** The extra templates for a category named "friends". */
  const FriendsTemplates: seq<WishTemplate> := [
    WishTemplate("Happy {ordinal} birthday to my partner in crime, {name}! Here's to many more adventures, late-night talks, and unforgettable memories! 🎊🤝", "heartfelt"),
    WishTemplate("{name}! Can you believe you're {age}?! You still act like you're 21 and I love that about you! Happy birthday, bestie! 😄🎉", "funny"),
    WishTemplate("To {name}, the friend who's been there through thick and thin - happy {ordinal} birthday! You're irreplaceable and I'm lucky to have you! 🤗💕", "heartfelt"),
    WishTemplate("Happy birthday, {name}! After all these years, you're still the friend who makes me laugh the hardest. Here's to {age} and beyond! 😂🎂", "funny"),
    WishTemplate("{name}, happy {ordinal}! Friends like you are rare gems. Thanks for being amazing! Now let's celebrate! 🎈💎", "heartfelt"),
    WishTemplate("Happy birthday to my favorite human! {name}, you're officially {age} years of pure awesomeness! 🌟🎉", "funny"),
    WishTemplate("To my ride-or-die {name} - happy {ordinal} birthday! Life is better with you in it! Let's make this year unforgettable! 🚀💫", "inspirational")
  ]

  /** The extra templates for a category named "work". */
  const WorkTemplates: seq<WishTemplate> := [
    WishTemplate("Happy {ordinal} birthday, {name}! Working with you is always a pleasure. Wishing you success and happiness in the year ahead! 💼🎂", "formal"),
    WishTemplate("{name}, happy birthday! You bring so much positive energy to the team. May your {ordinal} year be as brilliant as you are! 🌟", "heartfelt"),
    WishTemplate("Happy birthday to a fantastic colleague! {name}, hope your {ordinal} is amazing. The office is lucky to have you! 🎈", "formal"),
    WishTemplate("Wishing you a wonderful {ordinal} birthday, {name}! Here's to another year of achievements and growth. You're a rockstar! 🚀", "inspirational"),
    WishTemplate("Happy birthday, {name}! At {age}, you've got the experience AND the energy. A winning combo! Have a great day! 💪🎉", "funny"),
    WishTemplate("{name}, happy {ordinal}! Thanks for being such a great colleague. Enjoy your special day - you've earned it! 🏆", "formal")
  ]

  /** The extra templates for a category named "college". */
  const CollegeTemplates: seq<WishTemplate> := [
    WishTemplate("Happy {ordinal} birthday, {name}! From late-night study sessions to graduation day - so glad we're still friends! 📚🎉", "heartfelt"),
    WishTemplate("{name}, turning {age} looks amazing on you! Remember when we thought finals were the hardest thing ever? Happy birthday! 🎓😄", "funny"),
    WishTemplate("To my college buddy {name} - happy {ordinal}! Those were the days, and you're still one of my favorite people! Cheers! 🍻", "heartfelt"),
    WishTemplate("Happy birthday, {name}! From dorm life to real life, you've always been awesome. Here's to {age}! 🏠🎂", "heartfelt"),
    WishTemplate("{name}! {age} years old and still cooler than our professors! Happy birthday to my favorite college memory! 😎🎈", "funny"),
    WishTemplate("Happy {ordinal} birthday! {name}, our college adventures were legendary, and so are you! Here's to many more! 🌟", "inspirational")
  ]
}
